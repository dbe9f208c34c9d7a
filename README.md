# DIN-SQL on Bedrock: a Dafny model of the text-to-SQL core

The workshop repository turns a natural-language question into SQL with the
DIN-SQL recipe. A model on Amazon Bedrock is prompted in stages: schema
linking, classification, then generation. The generated SQL is then sent
back to the model for debugging. The class `DIN_SQL` in
`libs/din_sql/din_sql_lib.py` holds the database connection. It describes
the database schema to the prompts, extracts SQL from the model's replies
between "```sql" and "```" fences, and executes queries. When a query fails,
it asks the model once for a corrected statement. The notebook helpers in
`utilities.py` cut the bucket name out of an S3 URL, read a `<tag>...</tag>`
section out of a reply, and pick CloudFormation stack outputs by key.

This project models that core in Dafny:

- `wrappers.dfy` (`Wrappers`): `Option`, `Result`, and the Python exceptions
  the code can raise, as values.
- `strings.dfy` (`Strings`): the Python string operations the code uses.
  These are `str.split`, `str.join`, the slice `[:-1]`, `str.strip`,
  `startswith` and substring search, each with the laws the other modules
  rely on.
- `fences.dfy` (`Fences`): the split chains that cut SQL out of model replies.
- `utilities.dfy` (`Utilities`): `extract_s3_bucket`, `extract_tag` and
  `extract_CF_outputs`.
- `schema_text.dfy` (`SchemaText`): the schema descriptions that the prompts
  carry. These are `find_fields`, `find_foreign_keys`, `find_primary_keys`,
  `find_tables` and `get_schema`. Each is written as the loops of the source
  over a catalog value, and proved equal to a specification function.
  Lemmas then state what that function's text says.
- `din_sql.dfy` (`DinSqlLib`): the class `DinSql`. Its fields are the
  connection settings, the connection, the SQL dialect and the token counts.
  It models the connection methods, the Claude prompt wrapper, and `query`
  with its single revision. It also models `get_sql` with its fallbacks to
  "SELECT" and its debugger stage.

The database inspector is a `seq<Schema>` value. Each schema has tables with
their columns, foreign keys and primary-key items. Executing a statement,
opening a connection and calling the model are function parameters that
stand for what those services answer.

## Model

| member | source | states |
|---|---|---|
| Utilities.ExtractS3Bucket | utilities.py:28-34 | once a leading "s3://" is dropped, the bucket is the text before the first "/", or all of it when there is none; it never holds "/" |
| Utilities.BucketHasNoScheme | utilities.py:28-32 | a bucket never starts with "s3://" |
| Utilities.ExtractS3BucketIdempotent | utilities.py:28-34 | extracting the bucket of a bucket gives it back unchanged |
| Utilities.TagSearch | utilities.py:59-61 | finds the leftmost opening tag, then the last closing tag after it (greedy) or the first one (lazy); no match exactly when no opening tag is followed by a closing tag |
| Utilities.SearchMatchUnique | utilities.py:61 | the match `re.search` reports is unique |
| Utilities.ExtractTag | utilities.py:53-66 | `("", -1)` exactly when the pattern cannot match; otherwise the stripped capture of the reported match and the offset where the capture ends |
| Utilities.ExtractTagExample | utilities.py:55-56 | the docstring example: `extract_tag("foo <a>baz</a> bar", "a")` is `("baz", 10)` |
| Utilities.ExtractTagAsWritten | utilities.py:61 | as written, every call raises `NameError`, because the module never imports `re` |
| Utilities.ExtractTagAsWrittenMissesExample | utilities.py:55-61 | as written, the docstring example does not give its documented result |
| Utilities.FirstOutput | utilities.py:20-21 | `next(filter(...), None)`: `None` exactly when no output has the key, else the first output that has it |
| Utilities.ExtractCfOutputs | utilities.py:20-25 | one value per requested name, in order: the value of the first output with that key, or `None` when there is none |
| Fences.FirstFence | libs/din_sql/din_sql_lib.py:538 | `split(start)[1].split(end)[0]`: `ValueError` for an empty tag, `IndexError` when `start` is absent, else the first fenced block: the text after the first `start` is cut before its next `start`, and that piece before its first `end` (no `end` begins earlier in it) |
| Fences.FencedAfterFirstUnique | libs/din_sql/din_sql_lib.py:538 | the first fenced block is determined by the text and the two markers |
| Fences.FirstFenceOverlapExample | libs/din_sql/din_sql_lib.py:538 | with backticks that run together, "```sqlx````" gives the block "x" and not "x`" |
| Fences.LastSqlFence | libs/din_sql/din_sql_lib.py:617 | the block after the last "```sql" never holds "```" |
| Fences.LastSqlFenceNoMarker | libs/din_sql/din_sql_lib.py:617 | without "```sql", the slice is the text before the first "```" (no "```" begins earlier), or the whole text |
| Fences.LastSqlFenceAfterMarker | libs/din_sql/din_sql_lib.py:617 | with "```sql", the slice starts right after the last marker and is what precedes the first "```" from there, or the rest of the text |
| Fences.FollowsLastMarkerUnique | libs/din_sql/din_sql_lib.py:617 | "```sql" cannot overlap itself, so the last marker and the slice after it are determined by the text |
| Fences.LastSqlFenceOfSelect | libs/din_sql/din_sql_lib.py:613-620 | the "SELECT" fallback passes through the slice unchanged |
| Fences.ReplaceNewlines | libs/din_sql/din_sql_lib.py:625 | same length; each newline becomes a space and every other character is kept, so no newline is left |
| Fences.ReplaceNewlinesKeepsMarker | libs/din_sql/din_sql_lib.py:625-626 | flattening newlines neither creates nor removes a fence marker |
| Fences.DebuggedSql | libs/din_sql/din_sql_lib.py:625-626 | fails, with `IndexError`, exactly when the reply has no "```sql"; otherwise the first "```sql" block of the reply with newlines made spaces, stripped: no newline, no "```", and no whitespace at either end |
| SchemaText.SelectionFor | libs/din_sql/din_sql_lib.py:330-342 | a non-empty name that is a schema selects that schema alone; otherwise every schema except `information_schema` |
| SchemaText.AppendSegment | libs/din_sql/din_sql_lib.py:334-338 | the column loop, the `[:-1]` cut and the closing bracket add exactly the table's segment |
| SchemaText.CloseSegment | libs/din_sql/din_sql_lib.py:337-338 | cutting the last character and adding "]\n" turns the comma-terminated columns into the segment; a table with no columns loses its "[" |
| SchemaText.AppendSchemaFields | libs/din_sql/din_sql_lib.py:333-338 | the table loop appends the segments of a schema's tables, in order |
| SchemaText.AppendSelectedFields | libs/din_sql/din_sql_lib.py:341-351 | one round of the schema loop describes a selected schema and skips any other |
| SchemaText.AppendFields | libs/din_sql/din_sql_lib.py:330-351 | the schema loop builds the segments of every selected schema |
| SchemaText.FindFields | libs/din_sql/din_sql_lib.py:321-352 | `find_fields` returns the specification text |
| SchemaText.FieldsText | libs/din_sql/din_sql_lib.py:352 | the description is "[]" exactly when no selected schema has a table; otherwise it is the segments |
| SchemaText.FieldsSegmentColumns | libs/din_sql/din_sql_lib.py:334-338 | with no comma in the column names, splitting a segment's bracket contents at commas gives the columns back |
| SchemaText.AppendForeignKeys | libs/din_sql/din_sql_lib.py:302-306 | the foreign-key loop of one table succeeds exactly when every key has both column lists non-empty, and appends each key's entry and a comma |
| SchemaText.AppendSchemaForeignKeys | libs/din_sql/din_sql_lib.py:301-306 | the same for every table of a schema |
| SchemaText.FindForeignKeys | libs/din_sql/din_sql_lib.py:291-318 | `find_foreign_keys` returns the specification result, with `IndexError` for an empty column list |
| SchemaText.ForeignKeysText | libs/din_sql/din_sql_lib.py:291-318 | a failure is always `IndexError` |
| SchemaText.KeysOfSchemasEntries | libs/din_sql/din_sql_lib.py:304-315 | the loop-built text is the start marker followed by the entry list, each entry ending in a comma |
| SchemaText.KeyEntriesMembers | libs/din_sql/din_sql_lib.py:304-315 | a string is an entry exactly when it is the entry of a key of a table of a selected schema |
| SchemaText.BadSchema | libs/din_sql/din_sql_lib.py:305 | one unusable key in a selected schema makes the whole listing raise |
| SchemaText.ForeignKeysListing | libs/din_sql/din_sql_lib.py:317-318 | raises exactly when a selected key has an empty column list; otherwise "[" + entries joined by "," + "]", or "[]" when there are no entries |
| SchemaText.ForeignKeysRoundTrip | libs/din_sql/din_sql_lib.py:304-318 | with no comma inside the entries, the text is bracketed and splitting its inside at commas gives the entries back |
| SchemaText.AppendPrimaryKeys | libs/din_sql/din_sql_lib.py:369-371 | the primary-key loop of one table appends an entry for each dictionary item with "constrained_columns", and raises on an empty list |
| SchemaText.AppendSchemaPrimaryKeys | libs/din_sql/din_sql_lib.py:367-371 | the same for every table of a schema |
| SchemaText.FindPrimaryKeys | libs/din_sql/din_sql_lib.py:355-384 | `find_primary_keys` returns the specification result |
| SchemaText.PrimaryKeysText | libs/din_sql/din_sql_lib.py:355-384 | a failure is always `IndexError` |
| SchemaText.PrimaryKeysListing | libs/din_sql/din_sql_lib.py:372-384 | raises exactly when a selected dictionary item has an empty list; otherwise the entries joined by "," followed by "]\n", with no "[", or "[]" when there are none |
| SchemaText.PrimaryKeysOfPlainItems | libs/din_sql/din_sql_lib.py:369-370 | when every item is a plain key (what iterating a dictionary yields), the listing is always "[]" |
| SchemaText.FindTables | libs/din_sql/din_sql_lib.py:629-639 | `find_tables` returns the names of the tables of the schemas named `db_name` |
| SchemaText.FindTablesMembers | libs/din_sql/din_sql_lib.py:635-638 | a name is listed exactly when a schema named `db_name` has a table of that name |
| SchemaText.TableNamesSkip | libs/din_sql/din_sql_lib.py:636 | schemas with another name add nothing |
| SchemaText.FindTablesOfSchema | libs/din_sql/din_sql_lib.py:635-639 | with one schema of that name, the list is its table names in the inspector's order |
| SchemaText.AppendColumns | libs/din_sql/din_sql_lib.py:651-652 | the column loop appends each column name followed by "\|" |
| SchemaText.GetSchema | libs/din_sql/din_sql_lib.py:641-654 | `get_schema` returns the specification text |
| SchemaText.SchemaTextColumns | libs/din_sql/din_sql_lib.py:647-652 | the text is the columns of the matching tables of the matching schemas, each followed by "\|" |
| SchemaText.GetSchemaSplit | libs/din_sql/din_sql_lib.py:652-654 | with no "\|" in the names, splitting the text at "\|" gives those columns followed by one empty piece |
| DinSqlLib.DinSql.constructor | libs/din_sql/din_sql_lib.py:31-46 | no settings, no connection, no dialect, 8000 tokens to sample, both token counts zero |
| DinSqlLib.AthenaUrl | libs/din_sql/din_sql_lib.py:75 | the connection string starts with the region's Athena endpoint and the database path, carries the S3 staging directory, and ends with the catalog name |
| DinSqlLib.DbUri | libs/din_sql/din_sql_lib.py:94 | the URI starts with the engine as scheme and the user and password before "@", ends with the port and the database name as path, and the host reads back from between the two |
| DinSqlLib.DinSql.AthenaConnect | libs/din_sql/din_sql_lib.py:65-83 | opens the Athena connection string, built with the client's region when none is given; only a successful connection sets the connection and the "presto" dialect; nothing else changes |
| DinSqlLib.DinSql.DbConnect | libs/din_sql/din_sql_lib.py:86-103 | records the six settings and takes the engine as the dialect whatever happens; replaces the connection only when it opens |
| DinSqlLib.DinSql.ResetTokenCalculator | libs/din_sql/din_sql_lib.py:106-113 | both token counts become zero; nothing else changes |
| DinSqlLib.DinSql.BedrockClaudePromptMaker | libs/din_sql/din_sql_lib.py:150-163 | for a Claude model, the prompt sits between the Human and Assistant turns and can be read back from between them; other models get it unchanged |
| DinSqlLib.RevisionPrompt | libs/din_sql/din_sql_lib.py:526-535 | the revision prompt is one Human turn that ends by opening the Assistant turn |
| DinSqlLib.RevisionPromptMentions | libs/din_sql/din_sql_lib.py:526-535 | the revision prompt quotes the failed statement, the error, and both tags |
| DinSqlLib.ReviseQueryWithError | libs/din_sql/din_sql_lib.py:519-538 | succeeds exactly when the reply exists and holds the start tag; then gives the first fenced block. `AttributeError` for no reply, `IndexError` for a reply without the tag |
| DinSqlLib.DinSql.Query | libs/din_sql/din_sql_lib.py:116-146 | at most two statements run; the second only after the first failed, and it is the revision of the first. Rows come from the last statement. The error text is returned only when both fail. No connection gives `AttributeError`; a failed revision raises out |
| DinSqlLib.Generated | libs/din_sql/din_sql_lib.py:558-613 | after a model call, `SQL` holds the reply, `None` after a client error, or "SELECT" after a caught exception |
| DinSqlLib.FirstStage | libs/din_sql/din_sql_lib.py:558-613 | EASY leaves "SELECT" (its prompt maker raises `TypeError`); NON-NESTED and NESTED leave the result of the medium call; any other classification leaves `None` |
| DinSqlLib.NestedIsMedium | libs/din_sql/din_sql_lib.py:582-608 | "NESTED" never contains the sub-question marker, so it is answered exactly like "NON-NESTED" |
| DinSqlLib.PreDebugSql | libs/din_sql/din_sql_lib.py:558-620 | the SQL handed to the debugger never holds "```" |
| DinSqlLib.PreDebugSqlFallbacks | libs/din_sql/din_sql_lib.py:558-620 | EASY (the prompt maker rejects `word_in_mouth`), an unknown classification, and a missing or failed generation all give "SELECT" |
| DinSqlLib.PreDebugSqlOfReply | libs/din_sql/din_sql_lib.py:571-620 | with a reply to the medium prompt, the debugger gets that reply's last SQL block |
| DinSqlLib.DebuggerMetaData | libs/din_sql/din_sql_lib.py:400-402 | the metadata fails exactly when the foreign-key or the primary-key listing raises; otherwise it starts with the fields description, ends with "Primary_keys = " and the primary-key listing, and holds "Foreign_keys = ", the foreign-key listing and a newline between the two |
| DinSqlLib.DebuggerAnswer | libs/din_sql/din_sql_lib.py:623-626 | succeeds exactly when the debugger replies with a "```sql" block; `AttributeError` for no reply, `IndexError` for no block; a result is the reply's first "```sql" block with newlines made spaces, stripped, so no newline and no "```" |
| DinSqlLib.GetSqlOutcome | libs/din_sql/din_sql_lib.py:541-627 | without a connection, the inspection raises before the debugger is called |
| DinSqlLib.DinSql.GetSql | libs/din_sql/din_sql_lib.py:541-627 | `get_sql` returns the specification outcome, reading the connection and the dialect from the object |
| DinSqlLib.GetSqlResultShape | libs/din_sql/din_sql_lib.py:626-627 | the returned SQL holds no newline and no "```", and has no whitespace at either end |
| DinSqlLib.GetSqlResultOfDebugger | libs/din_sql/din_sql_lib.py:615-627 | a returned SQL is the stripped first "```sql" block of the debugger's reply to the pre-debug SQL and the schema metadata |
| DinSqlLib.GetSqlMissingBlock | libs/din_sql/din_sql_lib.py:626 | a debugger reply without a "```sql" block makes `get_sql` raise `IndexError` |

## Left out

- Jinja prompt rendering is not modelled. The schema-linking, classification,
  easy, medium and hard prompt makers and `debugger` are rendered from
  templates that are not part of this model. A model call is a parameter
  that maps the prompt's inputs to the reply.
- The Bedrock client (`run_bedrock`, `llm_generation`, `debugger_generation`)
  and token accounting are left out. A call is a `Generation`: a reply, the
  `None` returned after a client error, or an exception.
- DinSqlLib.DinSql.GetSql: exceptions raised by the prompt makers of the
  first stage are folded into the `Raised` answer of the `generate`
  parameter. This covers a missing connection and a foreign-key listing
  that raises while a medium prompt is built. Both are caught there and
  lead to "SELECT".
- Database access (SQLAlchemy engines, `execute`, the inspector) is left
  out. `execute` and `connect` are parameters. The inspector is a catalog
  value, and `db_engine_obj` is not modelled.
- SchemaText.FindForeignKeys: `get_foreign_keys(table_name)` is called
  without a schema in the source. The model uses the foreign keys of the
  table in the schema being walked. Schema names in a catalog are taken to
  be distinct.
- Utilities.ExtractTag: tag names are taken literally. Regular-expression
  metacharacters in a tag name are not modelled.
- Logging and `print` are left out, and so are the CloudFormation call
  behind `extract_CF_outputs`; its outputs are a parameter.
- Exceptions other than those the modelled paths raise (network errors,
  JSON decoding, key errors in a reply body) are left out.
- The example and instruction tag constants and the stop sequences only
  feed the rendered prompts and model calls, so they are left out.

## Findings

| source | as written | input that shows it | evidently intended | confidence | as-written member | corrected member |
|---|---|---|---|---|---|---|
| utilities.py:61 | `extract_tag` calls `re.search`, but the module imports only `typing`, `json` and `boto3`, so every call raises `NameError` | the docstring example `extract_tag("foo <a>baz</a> bar", "a")` | return `("baz", 10)` as documented, i.e. with `import re` added | high (not executed) | Utilities.ExtractTagAsWrittenMissesExample | Utilities.ExtractTag |
