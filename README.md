# Casvizer core, modelled in Dafny

Casvizer is a terminal SQL client. Below its text UI is a small core, and this project models that core in Dafny:

- **Dialects.** Three backends: PostgreSQL, MySQL and SQLite. Each dialect turns requests into SQL text: it quotes identifiers and string literals, appends `LIMIT/OFFSET`, wraps a query in `EXPLAIN`, and builds the catalog queries that list schemas, tables and columns. A case-insensitive factory picks the dialect from a type name.
- **Connection profiles.** A profile is a record of eight nullable fields plus setters. Its JDBC URL is either given explicitly or derived from the fields, with a check per backend.
- **Connections.** A `DatabaseConnection` wraps one JDBC handle and a `connected` flag. The `ConnectionService` keeps a name→connection map and one active connection.
- **Profile persistence.** The `ProfileStore` loads, saves, upserts and deletes profiles in a JSON file. Passwords are encrypted by the `SecretsStore`.
- **Services.** Query execution has an offset guard and pagination. The metadata service reads the catalog. The export service writes CSV, SQL `INSERT` statements and fixed-width text tables.

## How the model is built

There is one module per Java class. Four helper modules support them:

- `Wrappers` holds `Option`, `Result`, `Outcome`, the Java exceptions as a datatype, the `Int32` range, and `Collect`, the "first failure wins" loop.
- `Text` holds string helpers: ASCII case, join, replace, doubling, decimal text.
- `SqlSyntax` holds *readers*: small parsers for a quoted token, a SQL string literal and a `LIMIT/OFFSET` suffix. The properties of generated SQL are stated as "the reader gets the input back", so they say what the text means rather than how it is built.
- `Jdbc` models the driver layer. Values are `Null | Str | Num | Obj`. A result set is a `Cursor` (column labels plus rows). An open connection is a `Handle` class with a `closed` flag and the failures its `isClosed()`/`close()` would throw. A `Driver` is a function from an open request to a reply.

General conventions:

- Java exceptions become `Result`/`Outcome` values that carry an `Exception`. A nullable argument or field becomes an `Option`, with `null` as `None`; the arguments typed as plain strings are listed under "Left out".
- Pure Java code is modelled as functions and lemmas.
- Objects whose fields change become classes with `modifies` frames:
  - `ConnectionProfile`, `DatabaseConnection`, `ConnectionService` and `ProfileStore`;
  - the JSON file is a field `file: Option<Json>`.
- Loops become methods with invariants. Each method's `ensures` ties its result to a specification function, and lemmas prove that function's properties.
- Output files are the sequence of lines the writer would print.
- `MySQLDialect` is not part of this model. Its seven operations are a record of function values supplied by the caller, and nothing is assumed about them.

## Model

| member | source | states |
|---|---|---|
| DialectUtils.QuoteStringLiteralShape | src/main/java/io/github/crramirez/casvizer/dialect/DialectUtils.java:35-37 | The literal starts and ends with `'`. Its length is the input's plus 2 plus the number of `'` in it. Undoubling its body gives back the input. |
| DialectUtils.QuoteStringLiteralInjective | src/main/java/io/github/crramirez/casvizer/dialect/DialectUtils.java:35-37 | Different inputs give different literals. |
| DialectUtils.QuoteStringLiteralNoQuote | src/main/java/io/github/crramirez/casvizer/dialect/DialectUtils.java:35-37 | An input without `'` is just wrapped in quotes. |
| DialectUtils.QuoteStringLiteralReadsBack | src/main/java/io/github/crramirez/casvizer/dialect/DialectUtils.java:35-37 | Reading a SQL string literal from the output gives the input back. The literal ends exactly at its closing quote, so no text in the input can end it early. |
| PostgresDialect.QuoteIdentifierReadsBack | src/main/java/io/github/crramirez/casvizer/dialect/PostgresDialect.java:26-28 | The identifier is wrapped in `"` with inner `"` doubled, and reads back as exactly the input. |
| PostgresDialect.AddPaginationRejects | src/main/java/io/github/crramirez/casvizer/dialect/PostgresDialect.java:31-39 | Pagination fails exactly when limit or offset is negative. The limit is checked first, and each check has its own IllegalArgument message. |
| PostgresDialect.AddPaginationReadsBack | src/main/java/io/github/crramirez/casvizer/dialect/PostgresDialect.java:31-39 | For valid arguments the query is an unchanged prefix, and the rest reads back as ` LIMIT <limit> OFFSET <offset>` with the same two numbers. |
| PostgresDialect.ExplainQueryReadsBack | src/main/java/io/github/crramirez/casvizer/dialect/PostgresDialect.java:42-44 | The explain query is `EXPLAIN ` followed by the query. |
| PostgresDialect.DefaultSchemaIsPublic | src/main/java/io/github/crramirez/casvizer/dialect/PostgresDialect.java:53-74 | A null or empty schema gives the same tables and columns queries as `public`. |
| PostgresDialect.ListTablesQueryEmbedsSchema | src/main/java/io/github/crramirez/casvizer/dialect/PostgresDialect.java:54-62 | After the fixed prefix, the tables query holds exactly one string literal, which reads back as the effective schema. The fixed suffix follows it, so the schema cannot end the literal early. |
| PostgresDialect.ListColumnsQueryEmbedsNames | src/main/java/io/github/crramirez/casvizer/dialect/PostgresDialect.java:65-74 | The columns query is prefix, schema literal, ` AND table_name = `, table literal, suffix. Each literal reads back as the effective schema and the table name respectively. |
| PostgresDialect.ColumnsTailReadsBack | src/main/java/io/github/crramirez/casvizer/dialect/PostgresDialect.java:70-73 | The table part of the columns query reads back as the table name, followed by the `ORDER BY` suffix. |
| PostgresDialect.QuoteStringLiteralIsShared | src/main/java/io/github/crramirez/casvizer/dialect/PostgresDialect.java:84-86 | The class's private literal quoting is the same function as DialectUtils'. |
| SQLiteDialect.QuoteIdentifierAsPostgres | src/main/java/io/github/crramirez/casvizer/dialect/SQLiteDialect.java:26-28 | Identifier quoting is the same as PostgreSQL's. |
| SQLiteDialect.AddPaginationAsPostgres | src/main/java/io/github/crramirez/casvizer/dialect/SQLiteDialect.java:31-39 | Pagination is the same as PostgreSQL's: same rejections, same suffix. |
| SQLiteDialect.ExplainQueryReadsBack | src/main/java/io/github/crramirez/casvizer/dialect/SQLiteDialect.java:42-44 | The explain query is `EXPLAIN QUERY PLAN ` followed by the query. |
| SQLiteDialect.CatalogQueriesIgnoreSchema | src/main/java/io/github/crramirez/casvizer/dialect/SQLiteDialect.java:53-64 | The tables and columns queries are the same for every schema argument. |
| SQLiteDialect.ListColumnsQueryEmbedsTable | src/main/java/io/github/crramirez/casvizer/dialect/SQLiteDialect.java:60-64 | The columns query is `PRAGMA table_info(` + the table as an escaped literal + `)`, and the literal reads back as the table name. |
| DialectFactory.GetDialectRejectsNull | src/main/java/io/github/crramirez/casvizer/dialect/DialectFactory.java:26-28 | A null type is an IllegalArgument error. |
| DialectFactory.GetDialectSelects | src/main/java/io/github/crramirez/casvizer/dialect/DialectFactory.java:30-40 | `postgres`/`postgresql` select PostgreSQL, `mysql` selects MySQL and `sqlite` selects SQLite, in any case. Every other type is rejected with the "Unsupported database type" message. |
| DialectFactory.GetDialectIgnoresCase | src/main/java/io/github/crramirez/casvizer/dialect/DialectFactory.java:30 | Two type names equal ignoring case give the same outcome and the same dialect. |
| DialectFactory.GetDialectRejectsEmpty | src/main/java/io/github/crramirez/casvizer/dialect/DialectFactory.java:38-39 | The empty type name is rejected. |
| DialectFactory.KnownTypesAreLowerCase | src/main/java/io/github/crramirez/casvizer/dialect/DialectFactory.java:31-36 | The names matched against the lower-cased input are already lower case, so every one of them can match. |
| ConnectionProfile.ExplicitUrlWins | src/main/java/io/github/crramirez/casvizer/model/ConnectionProfile.java:97-103 | A non-empty explicit URL is returned as it is, and no other field is checked. |
| ConnectionProfile.DerivationSucceedsExactly | src/main/java/io/github/crramirez/casvizer/model/ConnectionProfile.java:109-146 | Without an explicit URL, derivation succeeds exactly when the backend's required fields are present. PostgreSQL/MySQL need host, database and port > 0; SQLite needs the database. A missing type and an unknown type each fail with their own message, and every failure is an IllegalArgument. |
| ConnectionProfile.ServerUrlReadsBack | src/main/java/io/github/crramirez/casvizer/model/ConnectionProfile.java:115-137 | For a host without a colon, a derived PostgreSQL/MySQL URL reads back as `jdbc:<scheme>://host:port/database` with the profile's host, port and database. A host that contains `:`, such as the IPv6 address `::1`, makes the URL ambiguous and is outside this lemma. |
| ConnectionProfile.SqliteUrlIgnoresServer | src/main/java/io/github/crramirez/casvizer/model/ConnectionProfile.java:138-142 | The SQLite URL is `jdbc:sqlite:` + database, whatever the host and port. |
| ConnectionProfile.DerivationIgnoresCase | src/main/java/io/github/crramirez/casvizer/model/ConnectionProfile.java:114 | Type names equal ignoring case derive the same URL. |
| ConnectionProfile.ConnectionProfile.constructor | src/main/java/io/github/crramirez/casvizer/model/ConnectionProfile.java:33-34 | A new profile has every field null and port 0. |
| ConnectionProfile.ConnectionProfile.Named | src/main/java/io/github/crramirez/casvizer/model/ConnectionProfile.java:36-39 | A profile constructed with a name and type has only those two fields set. |
| ConnectionProfile.ConnectionProfile.FromData | src/main/java/io/github/crramirez/casvizer/persistence/ProfileStore.java:67-69 | A profile read from the file holds exactly the stored fields. |
| ConnectionProfile.ConnectionProfile.SetName | src/main/java/io/github/crramirez/casvizer/model/ConnectionProfile.java:45-47 | Changes the name and nothing else. |
| ConnectionProfile.ConnectionProfile.SetDatabaseType | src/main/java/io/github/crramirez/casvizer/model/ConnectionProfile.java:53-55 | Changes the database type and nothing else. |
| ConnectionProfile.ConnectionProfile.SetHost | src/main/java/io/github/crramirez/casvizer/model/ConnectionProfile.java:61-63 | Changes the host and nothing else. |
| ConnectionProfile.ConnectionProfile.SetPort | src/main/java/io/github/crramirez/casvizer/model/ConnectionProfile.java:69-71 | Changes the port and nothing else. |
| ConnectionProfile.ConnectionProfile.SetDatabase | src/main/java/io/github/crramirez/casvizer/model/ConnectionProfile.java:77-79 | Changes the database and nothing else. |
| ConnectionProfile.ConnectionProfile.SetUsername | src/main/java/io/github/crramirez/casvizer/model/ConnectionProfile.java:85-87 | Changes the username and nothing else. |
| ConnectionProfile.ConnectionProfile.SetPassword | src/main/java/io/github/crramirez/casvizer/model/ConnectionProfile.java:93-95 | Changes the password and nothing else. |
| ConnectionProfile.ConnectionProfile.SetJdbcUrl | src/main/java/io/github/crramirez/casvizer/model/ConnectionProfile.java:105-107 | Changes the explicit URL and nothing else. |
| QueryResult.NewQueryResult | src/main/java/io/github/crramirez/casvizer/model/QueryResult.java:35-40 | The row count is the number of rows. The column names, rows and execution time are exactly the constructor's arguments. |
| DatabaseConnection.OpenRequestCarriesCredentials | src/main/java/io/github/crramirez/casvizer/model/DatabaseConnection.java:37-46 | The driver gets the profile's URL. It also gets the username and the password as set (null included), exactly when the username is non-empty. A URL that cannot be derived is the error. |
| DatabaseConnection.PasswordIgnoredWithoutUsername | src/main/java/io/github/crramirez/casvizer/model/DatabaseConnection.java:42-46 | Without a username the password does not reach the driver. |
| DatabaseConnection.DatabaseConnection.constructor | src/main/java/io/github/crramirez/casvizer/model/DatabaseConnection.java:32-35 | A new connection is not connected, has no handle and keeps its profile. |
| DatabaseConnection.DatabaseConnection.Connect | src/main/java/io/github/crramirez/casvizer/model/DatabaseConnection.java:37-48 | Success leaves it connected on a fresh open handle with the driver's behaviour. A derivation or driver failure is reported and leaves the flag and the handle unchanged. |
| DatabaseConnection.DatabaseConnection.CloseEffect | src/main/java/io/github/crramirez/casvizer/model/DatabaseConnection.java:50-58 | What disconnect reports is a driver exception, with nothing suppressed. |
| DatabaseConnection.DatabaseConnection.Disconnect | src/main/java/io/github/crramirez/casvizer/model/DatabaseConnection.java:50-58 | The handle is closed only if it was open and neither `isClosed()` nor `close()` failed. The disconnect reports the failure, and the object is left not connected whatever happens. |
| Jdbc.Handle.IsClosed | src/main/java/io/github/crramirez/casvizer/model/DatabaseConnection.java:52 | `isClosed()` reports the flag, or throws the failure the driver fixed for it. |
| Jdbc.Handle.Close | src/main/java/io/github/crramirez/casvizer/model/DatabaseConnection.java:53 | `close()` closes the handle, or throws and leaves it as it was. |
| ConnectionService.AggregateReportsFirst | src/main/java/io/github/crramirez/casvizer/service/ConnectionService.java:62-81 | The disconnect-all loop reports nothing when no disconnect failed. Otherwise it reports the first exception, with every later one suppressed in order: none is lost and none is repeated. |
| ConnectionService.DisconnectInOrder | src/main/java/io/github/crramirez/casvizer/service/ConnectionService.java:64-74 | Every connection in the iteration order is disconnected and its outcome recorded. Each keeps its JDBC handle, which ends closed exactly when it already was or when neither `isClosed()` nor `close()` threw. The result is the loop's aggregate of the outcomes. |
| ConnectionService.ConnectionService.constructor | src/main/java/io/github/crramirez/casvizer/service/ConnectionService.java:37-38 | Starts with no connections and no active connection. |
| ConnectionService.ConnectionService.Connect | src/main/java/io/github/crramirez/casvizer/service/ConnectionService.java:40-46 | Succeeds exactly when the request can be built and the driver accepts it. On success the new connection replaces any entry under the name, without closing the old one, and becomes active. The new connection is connected, on an open handle carrying the engine and the probe and close failures of the driver's reply. On failure the error is the URL derivation's, or the driver's refusal as an SQLException, and the map and the active pointer are unchanged. |
| ConnectionService.ConnectionService.Disconnect | src/main/java/io/github/crramirez/casvizer/service/ConnectionService.java:48-57 | An absent name changes nothing. For a present name the connection is disconnected: it is no longer connected, and its JDBC handle is closed unless probing or closing it threw. If that succeeded, the entry is removed and the active pointer cleared only when it pointed there. If it threw, the map and the pointer stay as they were. |
| ConnectionService.ConnectionService.DisconnectAll | src/main/java/io/github/crramirez/casvizer/service/ConnectionService.java:59-82 | Every entry is disconnected once, in some iteration order, and each one's JDBC handle is closed unless probing or closing it threw. The map is then empty and nothing is active, even if some disconnects failed. The result is the first failure with the later ones suppressed, and it is Pass exactly when every disconnect succeeded. |
| ConnectionService.ConnectionService.SetActiveConnection | src/main/java/io/github/crramirez/casvizer/service/ConnectionService.java:88-93 | Switches to the named connection only if it exists and is connected. Otherwise the active pointer is unchanged, and the map is never touched. |
| ConnectionService.ConnectionService.GetAllConnections | src/main/java/io/github/crramirez/casvizer/service/ConnectionService.java:95-97 | Returns each stored connection once. |
| SecretsStore.Passphrase | src/main/java/io/github/crramirez/casvizer/persistence/SecretsStore.java:37-48 | The key is the environment value when it is set and non-empty, and the built-in default otherwise. It is never empty. |
| SecretsStore.DecryptEncrypt | src/main/java/io/github/crramirez/casvizer/persistence/SecretsStore.java:56-86 | If the cipher inverts, decrypting an encrypted text gives it back, for every text including null and empty. Encryption keeps a text non-empty exactly when it was. |
| SecretsStore.EmptyPassesThrough | src/main/java/io/github/crramirez/casvizer/persistence/SecretsStore.java:56-73 | Whatever the cipher does, encrypt and decrypt both return a null or empty text as it is, and decrypting it never fails. |
| SecretsStore.DecryptFails | src/main/java/io/github/crramirez/casvizer/persistence/SecretsStore.java:70-86 | Decryption fails exactly for a non-empty text the cipher rejects, and then with IllegalState and the fixed message. |
| ProfileStore.ProfileStore.Open | src/main/java/io/github/crramirez/casvizer/persistence/ProfileStore.java:41-60 | Opening fails with IllegalState when the parent path exists but is not a directory, or when it could not be created. Otherwise the store is bound to the file. |
| ProfileStore.ProfileStore.LoadProfiles | src/main/java/io/github/crramirez/casvizer/persistence/ProfileStore.java:62-85 | Loading returns fresh, distinct profiles holding exactly the loaded contents. It fails with the first error that loading meets. |
| ProfileStore.DecryptRecords | src/main/java/io/github/crramirez/casvizer/persistence/ProfileStore.java:71-83 | The decryption loop yields fresh, distinct profile objects whose contents are the decrypted records, or the first error. |
| ProfileStore.LoadEncrypted | src/main/java/io/github/crramirez/casvizer/persistence/ProfileStore.java:62-101 | If the cipher inverts, loading what saving wrote gives back the copies exactly. Only non-empty passwords were encrypted, and they are decrypted back. |
| ProfileStore.SaveThenLoad | src/main/java/io/github/crramirez/casvizer/persistence/ProfileStore.java:62-101 | After a successful save, loading gives one profile per saved one, in order. Each equals the caller's profile except that its URL is now explicit, and that URL resolves the same way. |
| ProfileStore.ProfileStore.SaveProfiles | src/main/java/io/github/crramirez/casvizer/persistence/ProfileStore.java:87-101 | Saving writes the encrypted copies of the callers' profiles, or leaves the file untouched on failure. Only the file changes; the caller's objects are never modified. |
| ProfileStore.ProfileStore.Write | src/main/java/io/github/crramirez/casvizer/persistence/ProfileStore.java:88-100 | The file becomes the encrypted copies of the given records, or stays as it was when a copy fails. |
| ProfileStore.CopyKeepsUrl | src/main/java/io/github/crramirez/casvizer/persistence/ProfileStore.java:126-135 | A copy differs from its source only in the URL. That URL is the one the source resolves to, and copying a copy changes nothing. |
| ProfileStore.CopiesFail | src/main/java/io/github/crramirez/casvizer/persistence/ProfileStore.java:87-96 | Copying the list fails exactly when some profile's URL cannot be derived. Otherwise there is one copy per profile, in order. |
| ProfileStore.CopiesFailEarly | src/main/java/io/github/crramirez/casvizer/persistence/ProfileStore.java:88-96 | Once a prefix of the list fails to copy, the whole save fails the same way. |
| ProfileStore.DecryptAllSpec | src/main/java/io/github/crramirez/casvizer/persistence/ProfileStore.java:75-81 | Loading a stored list succeeds exactly when every element is non-null and decrypts. It then gives one profile per stored record, in order, each the record with only its password decrypted. A null or empty password is kept as stored. |
| ProfileStore.DecryptAllFailsEarly | src/main/java/io/github/crramirez/casvizer/persistence/ProfileStore.java:76-81 | Once a prefix of the stored list fails to decrypt, the whole load fails the same way. |
| ProfileStore.OthersSpec | src/main/java/io/github/crramirez/casvizer/persistence/ProfileStore.java:114 | The profiles kept are exactly those whose name is not the given one. A null name removes nothing. |
| ProfileStore.OthersInOrder | src/main/java/io/github/crramirez/casvizer/persistence/ProfileStore.java:120-124 | The kept profiles are the original list with the removed ones taken out: they appear at strictly increasing original positions, those positions are exactly the positions of the profiles not removed, and order and repeats are intact. |
| ProfileStore.OthersUnchanged | src/main/java/io/github/crramirez/casvizer/persistence/ProfileStore.java:122 | When no profile has the given name, removal leaves the list exactly as it was. |
| ProfileStore.AddReplaces | src/main/java/io/github/crramirez/casvizer/persistence/ProfileStore.java:110-118 | After an upsert the new profile is last and is the only one with its name. Everything before it is the old list with the same-named profiles taken out, in their original order. |
| ProfileStore.ProfileStore.AddProfile | src/main/java/io/github/crramirez/casvizer/persistence/ProfileStore.java:110-118 | Loads, removes every profile with the new one's name, appends it and saves. A stored profile without a name is a NullPointerException, and any failure leaves the file as it was. |
| ProfileStore.ProfileStore.DeleteProfile | src/main/java/io/github/crramirez/casvizer/persistence/ProfileStore.java:120-124 | Loads, removes every profile whose name equals the given one exactly, and saves the rest in order. Any failure leaves the file as it was. |
| QueryService.UnpaginatedRunsQuery | src/main/java/io/github/crramirez/casvizer/service/QueryService.java:46-57 | With limit ≤ 0 the query runs unchanged, whatever the offset and the database type. |
| QueryService.MaxQueryOffsetText | src/main/java/io/github/crramirez/casvizer/service/QueryService.java:40 | The bound is the number written `1000000`. |
| QueryService.OffsetGuard | src/main/java/io/github/crramirez/casvizer/service/QueryService.java:50-54 | With a positive limit and an offset above the bound, the query fails with the "Offset too large" message before the dialect is consulted. |
| QueryService.PaginatedRunsDialectPagination | src/main/java/io/github/crramirez/casvizer/service/QueryService.java:50-57 | With a positive limit and an offset within the bound, the executed SQL is the dialect's pagination of the query. For PostgreSQL a negative offset is rejected, and otherwise the SQL reads back as the query plus that limit and offset. |
| QueryService.RowsSpec | src/main/java/io/github/crramirez/casvizer/service/QueryService.java:74-80 | Rows are read exactly when every cursor row has the column count's values. Then each row is that row's first values, in order; otherwise the error is that of the first short row. |
| QueryService.MaterialisedShape | src/main/java/io/github/crramirez/casvizer/service/QueryService.java:59-84 | The column names are the metadata's. There is one row per cursor row, in order, each with exactly the column count's values, and the row count is the number of cursor rows. |
| QueryService.ExecuteQuery | src/main/java/io/github/crramirez/casvizer/service/QueryService.java:46-85 | The result is the materialised answer to the executed SQL. Otherwise it is the guard's, the dialect's or the database's error, in that order. |
| QueryService.ExecuteQueryUnpaginated | src/main/java/io/github/crramirez/casvizer/service/QueryService.java:42-44 | The two-argument form runs the query unpaginated. |
| QueryService.ExecuteUpdate | src/main/java/io/github/crramirez/casvizer/service/QueryService.java:87-91 | Returns the database's update count, or the error of a missing or closed connection. |
| QueryService.PlanRow | src/main/java/io/github/crramirez/casvizer/service/QueryService.java:105-111 | One plan line is the row's values joined by ` \| ` and ended by a newline. |
| QueryService.PlanTextFailEarly | src/main/java/io/github/crramirez/casvizer/service/QueryService.java:104-112 | Once a prefix of the rows fails, the whole plan fails the same way. |
| QueryService.PlanHasOneLinePerRow | src/main/java/io/github/crramirez/casvizer/service/QueryService.java:104-115 | When no value contains a newline, the plan has exactly one newline per row and ends with one. |
| QueryService.GetExplainPlan | src/main/java/io/github/crramirez/casvizer/service/QueryService.java:93-116 | Runs the dialect's explain query and returns the plan text of its rows. Otherwise it returns the dialect's or the database's error. |
| MetadataService.FirstColumnSpec | src/main/java/io/github/crramirez/casvizer/service/MetadataService.java:43-45 | The names are the first values of the rows, one per row, in cursor order. Reading fails exactly when some row has no value. |
| MetadataService.FirstColumnFailsEarly | src/main/java/io/github/crramirez/casvizer/service/MetadataService.java:43-45 | Once a prefix of the rows fails, the whole read fails the same way. |
| MetadataService.CollectFirstColumn | src/main/java/io/github/crramirez/casvizer/service/MetadataService.java:43-45 | The loop's result is the first-column reading. |
| MetadataService.ListSchemas | src/main/java/io/github/crramirez/casvizer/service/MetadataService.java:36-48 | Runs the dialect's schemas query and returns the first column of its rows. |
| MetadataService.ListTables | src/main/java/io/github/crramirez/casvizer/service/MetadataService.java:50-62 | Runs the dialect's tables query for the schema and returns the first column of its rows. |
| MetadataService.ToStringShape | src/main/java/io/github/crramirez/casvizer/service/MetadataService.java:123-126 | The text starts with the name and ` (`. It ends in `) NULL` exactly when the column is nullable, and in `) NOT NULL` exactly when it is not. |
| MetadataService.PragmaNullable | src/main/java/io/github/crramirez/casvizer/service/MetadataService.java:74-80 | Take a SQLite PRAGMA row in which the labels `name`, `type`, `notnull` and `dflt_value` are found (the first match ignoring case) within the row. It reads exactly when the `notnull` value is a number or SQL NULL. The column is then nullable exactly when that value is NULL or 0, and its name, type and default are the values under the other three labels, shown as text. |
| MetadataService.InformationSchemaNullable | src/main/java/io/github/crramirez/casvizer/service/MetadataService.java:82-88 | Take an information-schema row in which the labels `column_name`, `data_type`, `is_nullable` and `column_default` are found within the row. It always reads. The column is nullable exactly when the `is_nullable` value shows as `YES`, compared case-sensitively, so `yes` and SQL NULL mean not nullable. The other fields are the values under the other three labels. |
| MetadataService.MissingLabelFails | src/main/java/io/github/crramirez/casvizer/service/MetadataService.java:73-88 | A row set without a `name` column (SQLite) or a `column_name` column (others) fails with the driver's invalid-label error. |
| Jdbc.FindColumnSpec | src/main/java/io/github/crramirez/casvizer/service/MetadataService.java:75-86 | Label lookup finds the first column whose label equals the given one ignoring case, and fails exactly when none does. |
| MetadataService.ColumnsSpec | src/main/java/io/github/crramirez/casvizer/service/MetadataService.java:68-91 | There is exactly one ColumnInfo per row, in cursor order, when every row reads. Otherwise the result is the error of the first row that does not. |
| MetadataService.SqliteLayoutMatchesDialect | src/main/java/io/github/crramirez/casvizer/service/MetadataService.java:65-73 | The PRAGMA row layout is used exactly when the chosen dialect is SQLite. |
| MetadataService.ReadColumns | src/main/java/io/github/crramirez/casvizer/service/MetadataService.java:73-89 | The reading loop's result is the column reading of the cursor. |
| MetadataService.ListColumns | src/main/java/io/github/crramirez/casvizer/service/MetadataService.java:64-92 | Runs the dialect's columns query and reads each row in the layout of the connection's type. |
| ExportService.CsvLines | src/main/java/io/github/crramirez/casvizer/service/ExportService.java:33-54 | The header line is the column names joined by `,` without escaping. Then there is one line per row, of its cells joined by `,`. |
| ExportService.FlattenRemovesLineBreaks | src/main/java/io/github/crramirez/casvizer/service/ExportService.java:46 | After the replacements no `\n` or `\r` is left. |
| ExportService.FlattenKeepsSingleLine | src/main/java/io/github/crramirez/casvizer/service/ExportService.java:46 | A text without line breaks is unchanged. |
| ExportService.DoubleKeepsAbsent | src/main/java/io/github/crramirez/casvizer/service/ExportService.java:47 | Doubling quotes introduces no new characters. |
| ExportService.CsvCellSpec | src/main/java/io/github/crramirez/casvizer/service/ExportService.java:42-49 | A cell never contains a line break. Null is empty, and a plain value is written unchanged. A value with `,`, `"` or a line break is written as a quoted CSV field that reads back as the value with its line breaks turned into spaces. |
| ExportService.CsvRowsAreSingleLines | src/main/java/io/github/crramirez/casvizer/service/ExportService.java:39-52 | Every data line is a single line. |
| ExportService.CsvRow | src/main/java/io/github/crramirez/casvizer/service/ExportService.java:40-50 | The cell loop yields each value's CSV cell, in order. |
| ExportService.ExportToCsv | src/main/java/io/github/crramirez/casvizer/service/ExportService.java:33-54 | The lines written are exactly the CSV lines of the result. |
| ExportService.QuoteIdentifierSpec | src/main/java/io/github/crramirez/casvizer/service/ExportService.java:101-106 | Quoting is refused exactly for null and empty names, with IllegalArgument. An accepted name reads back as itself. |
| ExportService.QuoteAllSpec | src/main/java/io/github/crramirez/casvizer/service/ExportService.java:62-65 | All column names are quoted exactly when none is empty. Then each is its own quoting, in order. |
| ExportService.QuoteAllFailsEarly | src/main/java/io/github/crramirez/casvizer/service/ExportService.java:63-65 | Once a prefix of the columns fails, the whole quoting fails the same way. |
| ExportService.SqlStringReadsBack | src/main/java/io/github/crramirez/casvizer/service/ExportService.java:81-86 | A string value is a SQL literal that reads back as the value with backslashes doubled. Undoubling those gives the value, and no string renders as `NULL`. |
| ExportService.SqlLinesSpec | src/main/java/io/github/crramirez/casvizer/service/ExportService.java:56-95 | The export fails exactly when the table name or a column name is null or empty, even with no rows. Otherwise it writes one INSERT per row, in order, whose table and columns read back as the given names and whose values are that row's. |
| ExportService.RenderValues | src/main/java/io/github/crramirez/casvizer/service/ExportService.java:74-90 | The values loop renders each value and separates them with `, `. |
| ExportService.ExportToSql | src/main/java/io/github/crramirez/casvizer/service/ExportService.java:56-95 | The lines written are exactly the SQL export of the result. |
| ExportService.Widen | src/main/java/io/github/crramirez/casvizer/service/ExportService.java:118-123 | One row's pass keeps every width at least as large and fits every cell of the row; each width is the old one or a cell's length. A row longer than the columns runs off the array. |
| ExportService.WidthsSpec | src/main/java/io/github/crramirez/casvizer/service/ExportService.java:112-123 | Each width is the maximum of the header length and the lengths of that column's cells, with null shown as `NULL`. A row with more values than columns is an index error. |
| ExportService.ComputeWidths | src/main/java/io/github/crramirez/casvizer/service/ExportService.java:112-123 | The widths array holds the widths, or the index error. |
| ExportService.PaddedLineLength | src/main/java/io/github/crramirez/casvizer/service/ExportService.java:126-131 | The header line is as long as the widths plus the separators. |
| ExportService.PaddedLine | src/main/java/io/github/crramirez/casvizer/service/ExportService.java:126-131 | The header loop pads each name to its width and joins with ` \| `. |
| ExportService.DashesLength | src/main/java/io/github/crramirez/casvizer/service/ExportService.java:134-140 | The separator line is as long as the header line. |
| ExportService.SeparatorLine | src/main/java/io/github/crramirez/casvizer/service/ExportService.java:134-140 | The separator is each width's dashes joined by `-+-`. |
| ExportService.RowLinesAt | src/main/java/io/github/crramirez/casvizer/service/ExportService.java:143-153 | The k-th data line is row k padded and joined. |
| ExportService.RowLineLength | src/main/java/io/github/crramirez/casvizer/service/ExportService.java:144-152 | A full row's line is as long as the header line. |
| ExportService.RowLinesAligned | src/main/java/io/github/crramirez/casvizer/service/ExportService.java:143-153 | Every full row's line is as long as the header line. |
| ExportService.RowTexts | src/main/java/io/github/crramirez/casvizer/service/ExportService.java:149 | The cells' texts, with null shown as `NULL`. |
| ExportService.LinesAligned | src/main/java/io/github/crramirez/casvizer/service/ExportService.java:125-153 | Header, separator and every full row line up to the same width. |
| ExportService.TextTableAligned | src/main/java/io/github/crramirez/casvizer/service/ExportService.java:108-155 | The table has 2 + rows lines. The header, the separator and every full row have the same length. |
| ExportService.ExportToText | src/main/java/io/github/crramirez/casvizer/service/ExportService.java:108-155 | The lines written are exactly the corrected text table of the result. That table equals what the source writes whenever every column width is positive. For a zero-width column the source throws instead; see the Findings section. |
| ExportService.FormatCellsPositive | src/main/java/io/github/crramirez/casvizer/service/ExportService.java:130 | With positive widths the format call is right-padding. |
| ExportService.FormatCellsZero | src/main/java/io/github/crramirez/casvizer/service/ExportService.java:130 | A zero width makes the format call fail. |
| ExportService.FormatCellsFail | src/main/java/io/github/crramirez/casvizer/service/ExportService.java:130 | The only failure of the format call is the missing width. |
| ExportService.FormatRowsPositive | src/main/java/io/github/crramirez/casvizer/service/ExportService.java:144-152 | With positive widths the row loop as written gives the modelled lines. |
| ExportService.TextTableAgreesWhenWidthsPositive | src/main/java/io/github/crramirez/casvizer/service/ExportService.java:108-155 | When every width is positive, the table as written equals the modelled table. |
| ExportService.TextTableAsWrittenFailsOnZeroWidth | src/main/java/io/github/crramirez/casvizer/service/ExportService.java:130 | A zero width makes the table as written fail while the corrected table succeeds. |
| ExportService.EmptyColumnNameCounterexample | src/main/java/io/github/crramirez/casvizer/service/ExportService.java:130 | One column named `""` and no rows: the code as written fails, and the corrected table is two empty lines. |
| Wrappers.CollectSpec | src/main/java/io/github/crramirez/casvizer/service/QueryService.java:74-80 | The "first failure wins" loop succeeds exactly when every step does and then keeps the values in order; otherwise it gives the first failure. |
| Wrappers.CollectFailsEarly | src/main/java/io/github/crramirez/casvizer/service/MetadataService.java:74-88 | Once a prefix of the steps fails, the whole loop fails the same way. |
| SqlSyntax.QuotedReadsBack | src/main/java/io/github/crramirez/casvizer/dialect/DialectUtils.java:36 | Wrapping in a quote character with that character doubled reads back exactly, and the reader stops at the closing quote. |
| SqlSyntax.ReadPaginationOf | src/main/java/io/github/crramirez/casvizer/dialect/PostgresDialect.java:38 | The pagination suffix reads back as its two numbers. |
| Text.UndoubleDouble | src/main/java/io/github/crramirez/casvizer/dialect/DialectUtils.java:36 | Undoubling a doubled text gives it back. |
| Text.DoubleLength | src/main/java/io/github/crramirez/casvizer/dialect/DialectUtils.java:36 | Doubling adds one character per occurrence. |
| Text.EqualsIgnoreCaseIsLowerEquality | src/main/java/io/github/crramirez/casvizer/service/MetadataService.java:73 | `equalsIgnoreCase` is equality of the lower-cased texts. |

## Left out

- **File I/O.**
  - Reading and writing files, `IOException`, and what a partly written export file would contain are not modelled.
  - An export is the whole sequence of lines it would print, or the error it stops with.
  - `ProfileStore` writes the file only on success.
- **JSON.** Gson's JSON syntax is not modelled. The file is an already parsed `Json` value:
  - absent;
  - `null`;
  - a list whose elements may be null;
  - or malformed.
- **Cipher.**
  - Jasypt's `BasicTextEncryptor` is a pair of caller-supplied functions.
  - Round trips hold only under the stated hypothesis `Inverts`.
  - Salts and randomness are not modelled.
- **Environment and file system.** `System.getenv`, the directory checks and `mkdirs` are inputs to `Open`. Its file-system side effects are not modelled.
- **Clock.** `System.currentTimeMillis` becomes the `startTime`/`endTime` parameters of `QueryService.ExecuteQuery`.
- **Standard error.** `SecretsStore` writes to standard error; none of this output is modelled. It prints a warning when the default passphrase is used (persistence/SecretsStore.java:44-45). On a failed decryption it prints an error message and the stack trace (persistence/SecretsStore.java:77-80). The cause that the IllegalStateException wraps is not kept either.
- **Threads.** `synchronized` and thread safety in `ConnectionService` are modelled sequentially.
- **MySQL.** `MySQLDialect.java` is not part of this model. Its operations are uninterpreted function values.
- **Dialect interface.** `Dialect.java` only gives the shape of the `Dialect` datatype.
- **UI.** The UI classes and `Casvizer.java` are not modelled.
- **Driver.**
  - Messages are fixed texts: "Invalid column index", "Invalid column label", "Connection is closed".
  - `getInt` on a non-numeric value is an error.
  - `toString` of non-string objects is the text carried by `Obj`.
  - A driver's actual messages and conversions are not modelled.
- **Text.**
  - String lengths count characters, not UTF-16 code units.
  - Case mapping, `toLowerCase` and `equalsIgnoreCase`, is ASCII only and ignores the locale.
  - `String.format("%-Ns")` is right-padding with spaces.
- **Map order.** `HashMap` iteration order in `disconnectAll` and `getAllConnections` is not fixed. Both speak of some order that visits each entry once.
- **Aliasing.** `QueryResult` keeps the caller's lists in Java. Here they are values, so later changes to those lists are not modelled.
- **Widths.** Java `int` and `long` overflow in sizes and widths are left out. Ports, limits and offsets are kept in the 32-bit range.
- **ListColumns loops.** `MetadataService.ListColumns` reads rows in one loop whose layout is chosen once from the type, where the source has two loops. The two are equivalent.
- QueryResult.QueryResult.ColumnCount: a getter whose contract is its body: the column count is the number of column names. It has no separate partner; `QueryService.MaterialisedShape` uses it to say each row has column-count values.
- QueryResult getters: the other getters are the datatype's fields; `QueryResult.NewQueryResult` states they return the constructor's arguments.
- DialectUtils.QuoteStringLiteral: the argument is a non-null string. A null literal, a NullPointerException in the source, is not modelled.
- PostgresDialect.QuoteIdentifier and SQLiteDialect.QuoteIdentifier: a null identifier, a NullPointerException in the source, is not modelled.
- PostgresDialect.ListColumnsQuery and SQLiteDialect.ListColumnsQuery: a null table name, a NullPointerException in the source (and so in `MetadataService.ListColumns`), is not modelled.
- ExportService.CsvLines, ExportService.ExportToText and ExportService.ExportToSql: the column names of a `QueryResult` are non-null strings, so a null column name is not modelled in any of the three exports. The source writes it as `null` in the CSV header (ExportService.java:36). The text export throws a NullPointerException when it measures the name (ExportService.java:115). The SQL export rejects it with the IllegalArgumentException of its identifier quoting (ExportService.java:64, 102-103).
- ConnectionService.ConnectionService.HasActiveConnection: a predicate whose body is the source's condition (an active connection that is connected); it has no contract of its own.
- DatabaseConnection.DatabaseConnection.IsConnected: a predicate whose body is the source's check (flag set, handle present, `isClosed()` neither throws nor says true); it has no contract of its own.

## Findings

| source | as written | input that shows it | evidently intended | confidence | as-written member | corrected member |
|---|---|---|---|---|---|---|
| src/main/java/io/github/crramirez/casvizer/service/ExportService.java:130 | The format string `"%-" + widths[i] + "s"` becomes `%-0s` when a column's width is 0. Java's Formatter rejects that with MissingFormatWidthException, so the text export throws. The same format is used for cells at line 150. | A result with one column named `""` and no rows, or whose cells in that column are all empty strings. | Print the empty header and the cells unpadded, and write the table. | high, not executed | ExportService.EmptyColumnNameCounterexample | ExportService.TextTableAligned |
