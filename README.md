# Bearer-token authorization registry (package `auth`) in Dafny

This project models the core of the Go package `auth`, an in-process registry of bearer-token
authorizations, and proves properties of it. An authorization record names a client in a realm.
It carries an opaque token, a token type, a user, a scope string and an expiry in Unix seconds,
where 0 means "never". It also has a revocation flag and created/updated stamps. The core has
three parts:

- **The record** (`authorization.dfy`, module `Authorization`). It has a validity predicate
  (not revoked, and never expiring or not yet expired at `now`). It has a naive
  substring-based scope match and an admin-scope test. `Equal` compares four fields. The
  constructor takes the expiry as a number of days. The record has a seven-field comma-joined
  text form and a parser for it.
- **The store** (class `Authorization.Store`). It holds the two package-level tables: one keyed
  by token, one keyed by `realm + "." + clientID`. Registration writes both tables. Two lookups
  read them. Deletion always fails.
- **The request decision** (`endpoints.dfy` and `util.dfy`). `CheckAuthorization` composes
  header parsing, the store lookup, the validity check, the admin bypass and the scope check.
  `GetClientID` resolves the client of a token without any validity or scope check.
  `GetBearerToken` parses the `Authorization` header value.

Two library modules pin down the Go library calls the core relies on. `GoStrings` models
`strings.Split` and `strings.Contains`; its `Join` is not called by the core, but it is the
model's own reference for the inverse of `Split` and for the comma-joined layout that
`fmt.Sprintf("%s,%s,%s,%s,%s,%s,%d", ...)` produces. `GoStrconv` models `int64` with its
wrap-around, `strconv.ParseInt(s, 10, 64)`, and also the `fmt` verb `%d` (`FormatInt`), which
sits there because it is the inverse of `ParseInt`. Each library function is paired with a reference definition. For `Contains`,
the reference is substring occurrence. For `ParseInt`, it is decimal-literal syntax and value.
For `Split`, it is `Join` and the separator count.

Outside inputs become parameters:

- the clock `timestamp.Now()` becomes the argument `now`;
- the token generator `CreateSimpleToken()` becomes the `token` argument of `NewAuthorization`;
- the HTTP request becomes the value of its `Authorization` header.

Some consequences of the code that the proofs make explicit:

- An empty token in a well-formed `Bearer ` header is refused by `CheckAuthorization` with
  `NotAuthorized` (the lookup's `NoToken` is folded into the denial). `GetClientID` passes the
  same `NoToken` through unchanged (`Endpoints.EmptyBearerRefused`, `Endpoints.GetClientID`).
- The expiry sentinel 0 also catches a non-zero day count whose computed expiry is exactly 0.
  Such a record never expires. Example: `-1` day at `now == 86400`
  (`Authorization.IssuedValidity`, `Authorization.IssuedForMinusOneDay`).
- `realm + "." + clientID` is ambiguous when the realm holds a dot. Distinct identities then
  share a key, and the later registration wins (`Authorization.NamedKeyCollision`). With dot-free
  realms the key is injective (`Authorization.NamedKeyInjective`).
- Scope matching is on substrings: `api:read` matches `api:readonly`
  (`Authorization.HasScopeMatchesPrefixOfName`).
- The two tables are not kept consistent with each other. Re-registering a token with a new
  identity leaves the old identity key pointing at the old record. What does hold is that each
  record sits under its own token and its own identity key (`Authorization.Store.Valid`).

Behaviour of the code that a reader may not expect:

- `parse` fails with `NoSuchEntity` only for the empty string and a wrong field count. A bad
  expiry field returns `strconv.ParseInt`'s own error unchanged.
- A well-formed header with an empty token is refused as `NotAuthorized`, not as `NoToken`.
- `GetClientID` performs no validity check at all.

## Model

| member | source | states |
|---|---|---|
| `GoStrings.Contains` | authorization.go:110 | `strings.Contains(s, t)` holds exactly when `t` occurs in `s` at some index |
| `GoStrings.Split` | authorization.go:167 | `strings.Split` on one character: `n` separators give `n + 1` pieces, none holding the separator |
| `GoStrings.JoinSplit` | util.go:30 | joining the pieces of a split with the separator restores the string |
| `GoStrings.SplitJoin` | authorization.go:167 | splitting separator-free pieces joined by the separator gives the pieces back |
| `GoStrings.NotContainsMissingChar` | authorization.go:202 | a string lacking a character of `t` does not contain `t` |
| `GoStrconv.Wrap64` | authorization.go:135 | the wrapped value lies in `int64`, equals an in-range input and is congruent to the input modulo 2^64 |
| `GoStrconv.ParseUintSpec` | authorization.go:184 | the unsigned parse succeeds exactly on non-empty digit strings whose value fits in `uint64`, with that value; digits over the bound are a range error |
| `GoStrconv.ParseInt` | authorization.go:184 | `strconv.ParseInt(s, 10, 64)` succeeds exactly on an optional sign followed by one or more digits whose value lies in `int64`, and returns that value |
| `GoStrconv.ParseIntRejectsWord` | authorization_test.go:26 | the expiry `nonumber` is a syntax error |
| `GoStrconv.FormatInt` | authorization.go:92 | `%d` prints a decimal literal denoting the number, with no `+`, only digits and `-`, no leading zero (except `0` itself) and no `-0` |
| `GoStrconv.ParseFormat` | authorization.go:184 | parsing what `%d` prints gives back the number |
| `Authorization.Equal` | authorization.go:84-89 | a nil other record is never equal; otherwise equal iff token, realm, client and user agree |
| `Authorization.EqualIsEquivalence` | authorization.go:84-89 | `Equal` is reflexive, symmetric and transitive on records |
| `Authorization.EqualIgnoresGrant` | authorization.go:88 | scope, token type, expiry, revocation and timestamps do not affect `Equal` |
| `Authorization.String` | authorization.go:91-93 | the text form is the seven fields joined by commas and is at least six characters long |
| `Authorization.StringFields` | authorization_test.go:98-103 | with no comma in the six text fields, the text form splits into exactly its seven fields (six commas) |
| `Authorization.Parse` | authorization.go:163-191 | empty input or a comma count other than six is `NoSuchEntity`; with six commas it succeeds iff the last field is a decimal `int64`; with six commas a failure is exactly `ParseInt`'s error on the last field; a result is unrevoked, stamped `now`, comma-free, carries the first six fields and has the seventh field's decimal value as its expiry |
| `Authorization.ParseString` | authorization_test.go:106-130 | round trip: parsing the text form of a comma-free record gives the record with revocation cleared and both stamps `now`; it is `Equal` to the original and, for an unrevoked original, has the same validity |
| `Authorization.ParseStable` | authorization.go:163-191 | printing a parsed record and parsing it again reproduces the parse |
| `Authorization.ParseRejectsFieldCount` | authorization.go:167-170 | comma-free fields of any number other than seven are rejected with `NoSuchEntity` |
| `Authorization.ParseSevenFields` | authorization.go:171-190 | seven comma-free fields are read back field by field; the record fails with `ParseInt`'s error exactly when that parse fails |
| `Authorization.ParseRejectsMissingField` | authorization_test.go:132-135 | the six-field record of the parse test is rejected with `NoSuchEntity` |
| `Authorization.ParseRejectsNonNumericExpiry` | authorization_test.go:137-139 | the record with expiry `nonumber` is rejected with a syntax error |
| `Authorization.IsValid` | authorization.go:96-106 | a revoked record is invalid; an unrevoked one is valid iff its expiry is 0 or not before `now` |
| `Authorization.HasAdminScope` | authorization.go:108-111 | holds iff `api:admin` occurs in the scope |
| `Authorization.AdminScopeExamples` | authorization_test.go:73-87 | the default scope is not admin; `production:read api:admin` is |
| `Authorization.HasScope` | authorization.go:195-203 | false when either string is empty; otherwise true iff the requested scope occurs in the list |
| `Authorization.HasScopeMatchesListedScope` | authorization_test.go:31-37 | `production:read` is found in the test's scope list |
| `Authorization.HasScopeMissesUnlistedScope` | authorization_test.go:38 | `resource:read` is not found in the test's scope list |
| `Authorization.HasScopeMatchesPrefixOfName` | authorization.go:201-202 | the naive match lets `api:read` match `api:readonly` |
| `Authorization.ExpiresAfter` | authorization.go:135-141 | zero days give expiry 0; otherwise, without overflow, `now + days * 86400` |
| `Authorization.NewAuthorization` | authorization.go:124-144 | copies client, realm, user and scope; uses the generated token; type `user`; not revoked; created and updated at `now`; expiry per `ExpiresAfter` |
| `Authorization.IssuedValidity` | authorization.go:96-106 | an issued record is valid at a later time iff it never expires (zero days, or a computed expiry of exactly 0) or that time is not past the expiry |
| `Authorization.IssuedForOneDay` | authorization_test.go:50-60 | one day: the expiry is after `now` and the record is valid |
| `Authorization.IssuedForMinusOneDay` | authorization_test.go:62-65 | minus one day: invalid at `now`, unless `now` is exactly 86400 |
| `Authorization.IssuedForever` | authorization_test.go:67-70 | zero days: expiry 0 and valid at every time |
| `Authorization.NamedKey` | authorization.go:205-207 | the key has the realm, then a dot, then the client |
| `Authorization.NamedKeyInjective` | authorization.go:205-207 | with dot-free realms, equal keys mean the same realm and client |
| `Authorization.NamedKeyCollision` | authorization.go:205-207 | realm `a.b` with client `c` and realm `a` with client `b.c` share a key |
| `Authorization.Store.constructor` | authorization.go:79-82 | both tables start empty, and the store invariant holds |
| `Authorization.Store.RegisterAuthorization` | authorization.go:146-149 | both tables are overwritten at the record's token and identity key; the invariant is kept; both lookups then return the record (the token one when the token is non-empty); every other key of both tables is unchanged |
| `Authorization.Store.FindAuthorizationByToken` | authorization.go:113-122 | the empty token is `NoToken`; an unknown token gives no record and no error; otherwise the stored record, which in a valid store carries that token |
| `Authorization.Store.LookupAuthorization` | authorization.go:151-157 | never fails; a record exactly when the identity key is present, and then the one stored there |
| `Authorization.Store.LookupFindsOwnIdentity` | authorization.go:148-153 | in a valid store with dot-free realms, a lookup by identity finds a record of exactly that realm and client |
| `Authorization.Store.DeleteAuthorization` | authorization.go:159-161 | always fails with "not implemented" and changes nothing |
| `Util.GetBearerToken` | util.go:21-39 | every failure is `NoToken`; succeeds iff the header is `Bearer`, one space and a space-free rest, and then returns that rest |
| `Util.BearerRoundTrip` | util.go:30-35 | any space-free token, the empty one included, is extracted from `Bearer ` followed by it |
| `Util.MalformedHeadersHaveNoToken` | util.go:25-38 | the empty header, a bare `Bearer`, a doubled space and a lower-case `bearer` all give `NoToken` |
| `Endpoints.CheckAuthorization` | endpoints.go:13-33 | an extraction error is returned unchanged; after a good header every failure is `NotAuthorized`; it succeeds iff the non-empty token is stored and its record is valid and admin or holds the scope, and then returns that stored, valid record |
| `Endpoints.AdminIgnoresRequestedScope` | endpoints.go:24-26 | once an admin record is granted for one scope, it is granted the same for any other |
| `Endpoints.InvalidRecordRefused` | endpoints.go:19-22 | a stored record that is revoked or expired is refused with `NotAuthorized` for every scope |
| `Endpoints.ScopedRecordGranted` | endpoints.go:28-32 | a stored valid record holding the scope is granted under its own token |
| `Endpoints.EmptyBearerRefused` | endpoints.go:19-22 | the header `Bearer ` with an empty token is refused with `NotAuthorized` |
| `Endpoints.GrantedCarriesPresentedToken` | endpoints.go:19-32 | in a valid store the granted record's token is the presented one |
| `Endpoints.GetClientID` | endpoints.go:36-53 | a malformed header or an empty token is `NoToken`; an unknown token is `NotAuthorized`; otherwise the stored record's client |
| `Endpoints.ClientIDIgnoresValidity` | endpoints.go:44-52 | the client of any stored record is resolved, revoked or expired alike |
| `Endpoints.GrantedResolvesClient` | endpoints.go:36-53 | a header that is authorized for some scope resolves to the granted record's client |

## Left out

- HTTP and echo plumbing (`echo.Context`, `http.Request`, `r.Header.Get`) and the unused `context.Context` arguments: the decisions take the header value as a string, with an absent header being the empty string.
- `CreateSimpleID` and `CreateSimpleToken` (util.go:10-18): wrappers over an external UUID library; the token is a caller-supplied string and its uniqueness is not modelled.
- The clock `timestamp.Now()`: it is the parameter `now`.
- Nil pointers: in Go a nil receiver of `Equal`, `String`, `IsValid` or `HasAdminScope`, and a nil argument to `RegisterAuthorization` or `NewAuthorization`, panics (authorization.go:88, 92, 97, 110, 128, 147). The model's records are values, so these cases do not arise; no call site in the core passes nil. Only the nil *other* record of `Equal` is modelled, as `None`.
- Go's `int` is taken to be 64 bits wide: the `days` argument of `NewAuthorization` has the type `Int64`.
- Concurrency on the package-level tables: the source has no locking, and the store is modelled sequentially.
- Pointer aliasing: Go stores `*Authorization` in both tables, so a later change to a record would show through both. The model stores records as values; the package itself never changes a registered record.
- The `AuthType*` constants, JSON and binding tags, and `ErrAlreadyAuthorized` and `ErrNoScope`: they are declared but never used or produced.
- The text of Go error values: `strconv.NumError` is reduced to its kind, and the "not implemented" error to a constant.
- Bytes versus characters: Go strings are byte sequences and the model uses character sequences. Splitting on `,` or a space and substring search give the same answers on valid UTF-8.
- GoStrconv.ParseInt: the contract states when parsing succeeds and what it returns. It does not state which of the two errors a failure carries (syntax or range); that choice, where a digit prefix that overflows `uint64` wins over a later non-digit, is modelled in the body only.
- Authorization.ExpiresAfter: the contract states the result only when `days * 86400` and the sum do not overflow `int64`. The 64-bit wrap-around of larger values is modelled in the body only.
