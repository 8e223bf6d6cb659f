# Connection strings of the go-do-list PostgreSQL storage layer

This project models the text handling around PostgreSQL connection strings
in the storage package of go-do-list, and proves properties of it in Dafny.

- **`DBInfo`** (server/storage/postgres/postgres.go:31-40) is the credential
  record. It has eight string fields, in this order: user, host, database
  name, port, password, connect timeout, SSL mode and migration directory.
  The Dafny datatype `Postgres.DBInfo` keeps that order, and the parser's
  positional constructors rely on it. `PostgresTest.ParseBuilderRoundTrip`
  proves that each field lands where its keyword names.
- **`dbStringBuilder`** renders a record as space-separated `key=value`
  tokens in a fixed order: `user`, `host`, `port`, `dbname`,
  `connect_timeout`, `sslmode`. A trailing `password` token is added only
  when the password is non-empty. Values are inserted verbatim.
- **`replaceDBName`** points a connection string at another database. It is
  used when a disposable test database is created. It splits the string on
  single spaces, rewrites every token that starts with `dbname` to
  `dbname=<new>`, and joins the tokens again.
- **`parseDBString`** is the inverse parser used by the tests. It splits on
  spaces, then splits each token on `=`. It stores the second piece in the
  field that the keyword names. Unknown keywords are ignored, and SSL mode
  starts out as `require`.

The strings have the shape of the libpq keyword/value form (section 34.1.1
of the PostgreSQL 16 documentation, "Connection Strings"), but the code
implements none of that form's quoting or escaping. The builder's output is
in that form only when every rendered value is non-empty and holds no
whitespace, no backslash and no leading single quote. For example, an empty
host renders as `host= port=5432`, and libpq would take `port=5432` as the
host. The model describes the strings the code builds and splits, for every
record, not how a driver reads them.

Layout:

- `strings.dfy` (module `Strings`): Go's `strings.Split`, `strings.Join` and
  `strings.HasPrefix`, with Go semantics. Splitting on one separator gives
  n+1 pieces for n separators, and empty pieces are kept.
- `postgres.dfy` (module `Postgres`): the record, the builder and the rename.
- `postgres_test.dfy` (module `PostgresTest`): the parser and the round trips.

Each Go function is a method written the way the Go code is: the builder
appends to a slice, and the rename and the parser run a `for` loop over the
tokens. Each method's postcondition ties its result to a pure function:
`ConnString`, `WithDBName` or `Parsed`. The lemmas state what the code
promises about those functions.

Two behaviours of the code are easy to misread:

- The doc comment of `replaceDBName` (server/storage/postgres/postgres.go:157-158)
  says it replaces the string's dbname. The code tests the prefix `dbname`,
  not the keyword `dbname=`, so a token such as `dbnamex=1` is rewritten too.
  The model follows the code.
- In the keyword/value form a value runs to the next whitespace, and an `=`
  inside it belongs to the value. The parser instead keeps only the text
  between the first and the second `=`, so `password=a=b` parses to `a`
  (`PostgresTest.ValueStopsAtSecondEquals`). The model follows the code.

## Model

| member | source | states |
|---|---|---|
| `Strings.Split` | server/storage/postgres/postgres.go:160 | Go's `strings.Split` on one separator: there is at least one piece, and no piece holds the separator. Together with `JoinSplit`, this determines the pieces. |
| `Strings.JoinShape` | server/storage/postgres/postgres.go:98 | Go's `strings.Join`: no pieces give the empty string. Otherwise the result starts with the first piece and ends with the last, and the separator follows the first piece when there are more. |
| `Strings.JoinSplit` | server/storage/postgres/postgres.go:160-171 | Joining the pieces of a split on a separator gives back the original string, for every string. |
| `Strings.SplitJoin` | server/storage/postgres/postgres.go:98 | Splitting the join of a non-empty list of separator-free pieces gives back exactly those pieces. |
| `Strings.SplitCount` | server/storage/postgres/postgres.go:160 | A split yields one more piece than there are separators, empty pieces included. |
| `Strings.DoubledSeparatorGivesEmptyPiece` | server/storage/postgres/postgres_test.go:60 | Two separators in a row always produce an empty piece. |
| `Postgres.DBStringBuilder` | server/storage/postgres/postgres.go:83-99 | The string built by appending the six tokens, then the password token when the password is non-empty, is `ConnString(d)`. When no field holds a space, it splits back into exactly those tokens. |
| `Postgres.TokenOrder` | server/storage/postgres/postgres.go:84-96 | There are 6 tokens for an empty password and 7 otherwise. Token k is keyword k of `user, host, port, dbname, connect_timeout, sslmode, password`, then `=`, then the named field verbatim. |
| `Postgres.PasswordTokenIffNonEmpty` | server/storage/postgres/postgres.go:93-96 | Some token starts with `password=` exactly when the password is non-empty. Any such token is the last one. |
| `Postgres.BuilderSplitsIntoTokens` | server/storage/postgres/postgres.go:84-98 | When no field holds a space, splitting the output on spaces gives exactly the builder's tokens: 6 for an empty password, 7 otherwise. |
| `Postgres.MigrationDirIgnored` | server/storage/postgres/postgres.go:83-99 | Two records that agree on the seven connection fields render the same string, whatever their migration directories. |
| `Postgres.ReplaceDBName` | server/storage/postgres/postgres.go:159-172 | The loop builds, token by token, the rewritten token list, and returns its join: `WithDBName(s, name)`. |
| `Postgres.SplitWithDBName` | server/storage/postgres/postgres.go:160-171 | With a space-free name, the result splits into the input's tokens, each one rewritten. |
| `Postgres.ReplacePreservesTokens` | server/storage/postgres/postgres.go:163-169 | With a space-free name, the token count is kept. A token not starting with `dbname` is unchanged at its index. Every token starting with `dbname` becomes exactly `dbname=<name>`. |
| `Postgres.ReplaceWithoutDBNameIsIdentity` | server/storage/postgres/postgres.go:163-171 | If no token starts with `dbname`, the output equals the input. |
| `Postgres.ReplaceIdempotent` | server/storage/postgres/postgres.go:164-166 | With a space-free name, replacing twice with the same name gives the same result as replacing once. |
| `Postgres.RewriteBuilderToken` | server/storage/postgres/postgres.go:164-168 | The rewrite changes only the builder's dbname token, which becomes the dbname token for the new name. |
| `Postgres.ReplaceBuilderRoundTrip` | server/storage/postgres/postgres.go:159-172 | Assume no field and not the name holds a space. Renaming the builder's output gives the builder's output for the record with the new name. |
| `PostgresTest.Key` | server/storage/postgres/postgres_test.go:67-69 | The keyword is a prefix of the token, holds no `=`, and is followed by `=` or the end of the token. |
| `PostgresTest.Value` | server/storage/postgres/postgres_test.go:67-68 | The value holds no `=`. It is the text right after the first `=`, and it is followed by a second `=` or the end of the token. |
| `PostgresTest.ParseDBString` | server/storage/postgres/postgres_test.go:59-88 | The loop's record equals `Parsed(s)`, with an empty migration directory. It requires that every token has `=`; the Go code panics otherwise. |
| `PostgresTest.LastOccurrenceWins` | server/storage/postgres/postgres_test.go:66-85 | When a keyword appears more than once, the value of its last token is the one kept. |
| `PostgresTest.AbsentKeyKeepsDefault` | server/storage/postgres/postgres_test.go:62-85 | A keyword no token carries keeps its initial value. |
| `PostgresTest.ParsedField` | server/storage/postgres/postgres_test.go:66-85 | For each of the seven keywords, the parsed field is the value of the last token with that keyword. With no such token it is the default: `require` for sslmode, empty otherwise. |
| `PostgresTest.SSLModeDefaultsToRequire` | server/storage/postgres/postgres_test.go:62-64 | Without an `sslmode` token the parsed SSL mode is `require`. The migration directory is always empty. |
| `PostgresTest.OtherKeyIgnored` | server/storage/postgres/postgres_test.go:69-84 | A token with a different keyword, wherever it stands, does not change the value parsed for a keyword. |
| `PostgresTest.UnknownKeyIgnored` | server/storage/postgres/postgres_test.go:69-84 | Removing a token with an unrecognised keyword, from any position, leaves the parsed record unchanged. |
| `PostgresTest.DoubledSpaceNotWellFormed` | server/storage/postgres/postgres_test.go:67-68 | A doubled space yields an empty token without `=`. That input is outside the parser's precondition, and the Go code panics on it. |
| `PostgresTest.KeyValueOfPair` | server/storage/postgres/postgres_test.go:67-68 | For a token `key=value` with no `=` in key or value, the parser reads back that key and that value. |
| `PostgresTest.ValueStopsAtSecondEquals` | server/storage/postgres/postgres_test.go:67-68 | A value is cut at a second `=`: `key=v=w` parses to `v`. |
| `PostgresTest.ParseBuilderTokens` | server/storage/postgres/postgres_test.go:59-88 | Assume no field holds `=`. Parsing the builder's token list gives the record with an empty migration directory. |
| `PostgresTest.ParseBuilderRoundTrip` | server/storage/postgres/postgres_test.go:59-88 | Assume no field holds a space or `=`. Parsing the builder's output gives the record with an empty migration directory. |
| `PostgresTest.ParseAfterReplace` | server/storage/postgres/postgres_test.go:59-88 | Assume the same for the record and the new name. Renaming the builder's output and parsing it gives the record with the new name and an empty migration directory. |

## Left out

- `NewStorage` (server/storage/postgres/postgres.go:44-61) opens a connection, pings the server and runs migrations. These are database I/O. The builder it calls at line 45 is modelled.
- `runMigrations` wraps the goose migration library, which is foreign code not modelled here.
- `NewTestStorage` and `newTestDB` are left out:
  - They create and drop databases over the network and set pool options.
  - They stop on errors through `panic` and `log.Fatalf`.
  - They name the test database with a random UUID.
- The model keeps one fact from `newTestDB`: the rename lemmas require a space-free name, and the UUID text used as the name at line 130 has no spaces. UUID generation itself is not modelled.
- `TestMain`, `TestNewStorage` and `TestNewTestStorage` are integration tests. They read the environment and need a live database.
- server/main.go (HTTP server, signal handling, configuration loading) is not part of this model.
- `PostgresTest.ParseDBString`: the Go panic on a token without `=` is a precondition, not an error result.
- `PostgresTest.ParseDBString` returns the record as a value. The Go code returns a fresh pointer, and pointer identity is not modelled.
- No lemma checks one concrete record against its literal rendered string. The general lemmas above cover every record.
- Strings are sequences of characters, while Go strings are byte sequences. Split, Join and the prefix test agree on both, because the separators `' '` and `'='` are ASCII and never occur inside a multi-byte UTF-8 sequence. A Go string that is not valid UTF-8 has no counterpart in the model.
- How the PostgreSQL driver reads a connection string is not modelled. With an empty field or a value holding whitespace, a backslash or a leading quote, the driver's reading differs from the tokens the model describes.
