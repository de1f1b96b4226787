# Agent-by-author relation fetch adapter and nullable-string conversions

This project models the data-shaping core of a GraphQL server that batches
related-entity lookups per request (the N+1 query problem). Each batch of
author keys is handed to the `Fetch` function of the `AgentByAuthorID`
loader. `Fetch` runs one bulk query, `ListAgentsByAuthorIDs`, for all the keys.
It indexes the flat result rows by `AuthorID` in a map, where a later row
overwrites an earlier one. It then returns one optional agent per input key, at
that key's own position, with `nil` for a key no row matched. If the query
fails, it returns no values and that one error.

A second, tiny core converts between an optional string (Go `*string`) and a
nullable text column (`sql.NullString`). `StringPtrToNullString` stores the
value and the `Author.website` resolver reads it back.

Modules:
- `Wrappers` (wrappers.dfy): `Option` for Go pointers, `Result` for `(T, error)`
  returns, `Error` for Go's `error`, and the `int64` key type.
- `Pg` (pg.dfy): the record types `NullString`, `Agent`, `Author`, `AgentRow`, and
  `StringPtrToNullString`.
- `Resolvers` (resolvers.dfy): `Website` and the two round-trip lemmas.
- `Dataloaders` (dataloaders.dfy): `Fetch` as a method with the source's two loops.
  It fills a `map` and then an `array`. It is proved against `AgentFor`, the
  agent of the last row selected by a key.

The bulk query is not called. Its outcome is an input of `Fetch`:
`Result<seq<AgentRow>, Error>`. `ListAgentsByAuthorIDs` is not declared in the
`Repository` interface declared at pg/pg.go:12-36, and the query that implements it
is not part of this model. The source returns `nil` values on failure
(dataloaders/dataloaders.go:55) and `nil` errors on success (line 71); the model
writes both as `[]`.

## Model

| member | source | states |
|---|---|---|
| Pg.StringPtrToNullString | pg/pg.go:120-125 | total; the record is valid exactly when a string is present, then holds that string; absent gives the zero value `{"", false}` |
| Resolvers.Website | gqlgen/resolvers.go:49-56 | never an error; a valid column gives the present string `String`; an invalid one gives absent whatever `String` holds |
| Resolvers.WebsiteRoundTrip | pg/pg.go:120-125 | storing an optional string and resolving it again returns the original optional, with no error |
| Resolvers.NullStringRoundTrip | gqlgen/resolvers.go:49-56 | resolving a column and storing the answer rebuilds it exactly when it is valid or its `String` is empty; invalid columns are normalised to `{"", false}` |
| Dataloaders.AgentOf | dataloaders/dataloaders.go:60-64 | the agent carries exactly the row's `ID`, `Name` and `Email` |
| Dataloaders.Lookup | dataloaders/dataloaders.go:69 | a key missing from the map gives absent; a present key gives its mapped agent |
| Dataloaders.LastRowIndex | dataloaders/dataloaders.go:59-65 | the index found is a row selected by the key with no later such row; absent exactly when no row is selected by the key |
| Dataloaders.AgentFor | dataloaders/dataloaders.go:58-69 | absent exactly when no row has the key; otherwise the agent of a row with that `AuthorID` and no later row with it |
| Dataloaders.AgentForSnoc | dataloaders/dataloaders.go:59-65 | a later row overwrites the entry for its own `AuthorID` and leaves every other key's entry unchanged |
| Dataloaders.AgentForLastRowWins | dataloaders/dataloaders.go:59-65 | when several rows share an `AuthorID`, the entry is built from the last of them in query order |
| Dataloaders.AgentForIgnoresOtherRows | dataloaders/dataloaders.go:58-70 | removing a row whose `AuthorID` differs from a key does not change that key's entry, so rows for keys not asked for never reach the output |
| Dataloaders.Fetch | dataloaders/dataloaders.go:51-72 | query failure gives no values and exactly that one error; success gives no errors, one entry per key, and entry i is `AgentFor(rows, authorIDs[i])`; duplicate keys get identical entries |

The `Agent` datatype has no field besides `ID`, `Name` and `Email`.

## Left out

- The batching engine `AgentLoader` / `NewAgentLoader` and its configuration (`MaxBatch: 100`, `Wait: 5ms`). It is generated code that is not part of this model, and what it does is concurrency and timing: waiters, timers and batch thresholds.
- `Loaders`, `newLoaders`, `Retriever.Retrieve` and the middleware. These are request plumbing: a `context.Value` lookup with a type-assertion panic.
- The loaders `AuthorsByAgentID`, `BooksByAuthorID` and `AuthorsByBookID` used by the resolvers. No fetch adapter for them exists in the source.
- `withTx`, `CreateBook`, `UpdateBook`, `NewRepository` and `Open`. These are database transactions and connection setup around generated queries.
- The other resolvers. They pass calls through to the repository and do nothing else.
- `Website`'s `ctx` argument, which it does not use.
- The request context that `Fetch` captures (dataloaders/dataloaders.go:47) and hands to the query (line 53). Its only effect here is a query failure, which `query` being `Failure` covers.
- Pointer semantics: the model uses values. The source allocates one `*pg.Agent` per row (line 60) and copies that pointer into the result (line 69), so duplicate keys share one pointer; the model gives them equal values. `Website` takes `*pg.Author`, and a nil `obj` would panic at gqlgen/resolvers.go:51; the model always has an `Author`.
- `Author`: the generated struct is not part of this model. It is reduced to `ID`, `Name` and `Website`.
