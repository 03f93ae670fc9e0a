# Azure Storage and Key Vault clients — a Dafny model

This project models the request-building core of a small TypeScript client library for
Azure Storage (blob containers, tables, queues) and Azure Key Vault.

- **Storage account.** An `AzureStorage` account parses its connection string in place.
  It keeps one `Container` and one `Table` client per name.
- **Storage clients.** Their `fetch` builds the default headers, copies the caller's
  headers over them and asks the account for a Shared Key `Authorization` value. The
  signing scheme is the "Authorize with Shared Key" scheme of the Azure Storage REST API
  (version 2009-09-19 and later), in its blob/queue variant (13 fields) and its table
  variant (5 fields).
- **Key Vault.** An `AzureADApplication` caches an access token. It obtains the token
  with the OAuth 2.0 client-credentials grant (section 4.4 of RFC 6749). A `KeyVault`
  sends bearer-authenticated requests for secrets and keys.

Nothing is sent. Every operation returns the `Request` it would pass to `fetch`: verb,
full URL, headers in insertion order, and body. Clocks and network answers are
parameters:

- the storage clients take the `x-ms-date` string;
- `refresh` takes the current time in milliseconds and the token endpoint's reply;
- a failed reply is `None`.

The modules:

- `wrappers.dfy`: `Option` and `Result`.
- `text.dfy`: the JavaScript string operations the code uses: `split`, `join`, ASCII
  case mapping, decimal rendering and `${}` interpolation of an optional value.
- `ordering.dfy`: the comparator `a < b ? -1 : 1` (UTF-16 code-unit order) and the
  sort it drives, proved to give a sorted permutation that depends only on the multiset
  of lines.
- `utf8.dfy`, `url.dfy`: UTF-8, `encodeURI`, and the `URLSearchParams` parser that
  reads the query.
- `records.dfy`: JavaScript objects as ordered records, with assignment and the for-in
  header copy.
- `platform.dfy`: the runtime services (base64, HMAC-SHA256 and `JSON.stringify`) as
  uninterpreted functions. Also the failures and the `Request` value.
- `connection_string.dfy`: `initialize`.
- `shared_key.dfy`: `createAuthorization`.
- `blob_requests.dfy`, `table_requests.dfy`, `queue_requests.dfy`,
  `vault_requests.dfy`, `tokens.dfy`: the request rules of each client as functions
  over values, with their properties.
- `storage.dfy`, `vault.dfy`: the clients as classes with fields updated in place,
  whose methods are proved to produce exactly the requests those functions describe.

Some behaviour of the code is modelled as written:

- The expiry recorded after a token exchange is always an invalid date. Line 63 of
  `app.ts` adds the `getSeconds` method itself, not its result, to `expires_in`. So
  with an empty client secret, no exchange ever happens again after the first one.
- The vault URL has two slashes after the host, because every path starts with `/`.
- An undefined access token is sent as `Bearer undefined`.
- Key names and versions go into the vault path unescaped, so a `/` in a key name makes
  the path ambiguous.
- Table filter conditions and partition keys go into the URL unescaped. A condition
  holding `&` therefore ends the `$filter` parameter early, and the text after it is
  read, and signed, as a parameter of its own.

## Model

| member | source | states |
|---|---|---|
| `Text.JoinSplit` | storage.ts:37-38 | splitting at a character and joining with it again gives back the text, so a value after the first `=` is kept whole |
| `Text.SplitHead` | storage.ts:37-38 | the destructuring `[key, ...values]` takes the text before the first separator as the key and re-joins the rest exactly |
| `ConnectionString.PairAtFirstEquals` | storage.ts:37-38 | a pair is cut at its first `=`: the key has no `=`, key + `=` + value rebuilds the pair, and a pair without `=` has an empty value |
| `ConnectionString.UnknownKeyIgnored` | storage.ts:39-53 | a pair whose key is none of AccountName, AccountKey, EndpointSuffix leaves the credentials unchanged |
| `ConnectionString.InitializeMemoised` | storage.ts:33-34 | once a key is set, `initialize` changes nothing and succeeds |
| `ConnectionString.ParseLastWins` | storage.ts:35-54 | after a complete parse each field holds the value of the last pair naming it, or keeps its previous value when no pair names it |
| `ConnectionString.ParseKeyImported` | storage.ts:42-50 | a parse that completes has imported every AccountKey it met |
| `ConnectionString.ParseNoKeyOk` | storage.ts:34-55 | without an AccountKey pair the parse never fails, so it runs again on every call |
| `ConnectionString.InitializeTwice` | storage.ts:33-56 | a second `initialize` after a successful one leaves the same credentials, so signing after `Container.fetch` initialized sees the same account |
| `Storage.AzureStorage.Initialize` | storage.ts:33-56 | the loop over the pairs leaves the fields and the success flag of the parse specification, and touches neither memo map |
| `Storage.AzureStorage.ContainerFor` | storage.ts:58-63 | the same object for a known name, otherwise a fresh container added under that name; no other entry changes |
| `Storage.AzureStorage.TableFor` | storage.ts:65-70 | the same object for a known name, otherwise a fresh table added under that name; no other entry changes |
| `Storage.AzureStorage.CreateAuthorization` | storage.ts:72-133 | initializes the account, then yields the Shared Key value over the initialized credentials, or the initialization failure |
| `Platform.ImportKey` | storage.ts:43-49 | definition: a raw HMAC key is made from the decoded bytes exactly when there are some, and keeps them |
| `Records.GetAssign` | container.ts:57-61 | after the for-in copy a caller's header wins and every other header keeps its default |
| `Records.AssignKeys` | table.ts:60-64 | the copy keeps the keys distinct and the defaults first, in their order |
| `Records.CopyInto` | queue.ts:49-53 | the for-in loop computes the record assignment |
| `Records.GetSet` | container.ts:53-54 | after `h[k] = v`, reading `k` gives `v` and every other key reads as before |
| `Records.GetPermutation` | storage.ts:103-125 | reading a header does not depend on the order of the entries |
| `Ordering.SortSorted` | storage.ts:87 | the comparator sort yields lines in ascending order |
| `Ordering.SortPermutationInvariant` | storage.ts:87 | the sort result depends only on the multiset of lines |
| `Ordering.SortedArrangement` | storage.ts:98 | a sorted arrangement of the lines is the sort result |
| `Ordering.LessTotal` | storage.ts:87 | two different strings are ordered one way or the other |
| `Ordering.LessTransitive` | storage.ts:87 | string order is transitive |
| `Ordering.CollectPermutation` | storage.ts:84-86 | filtering and formatting permuted entries gives permuted lines |
| `Ordering.CollectMember` | storage.ts:84-86 | a line is produced exactly when some entry produces it |
| `SharedKey.CanonicalizedHeaders` | storage.ts:83-88 | the header block always ends with a line feed, even with no `x-ms-` header |
| `SharedKey.HeaderLines` | storage.ts:83-88 | a line is in the header block exactly when some header named `x-ms-…` (case-sensitive) gives `lowercase(name):value` |
| `SharedKey.HeaderSigned` | storage.ts:83-88 | every `x-ms-` header set on the request is signed as `lowercase(name):value` |
| `SharedKey.HeaderLinesSorted` | storage.ts:87 | the header lines stand in ascending order |
| `SharedKey.NoMsHeaders` | storage.ts:83-88 | with no `x-ms-` header the block is a lone line feed |
| `SharedKey.HeadersOrderIndependent` | storage.ts:83-88 | the header block does not depend on the order in which headers were set |
| `SharedKey.QueryLines` | storage.ts:91-97 | the query lines are exactly the parameters whose name does not start with `$`, as `lowercase(name):value` with spaces as `%20` |
| `SharedKey.ResourceWithoutQuery` | storage.ts:79-93 | a URL without `?` signs as `/{account}/{encodeURI(url)}` |
| `SharedKey.ResourceWithLines` | storage.ts:92-101 | a URL with parameters signs as the bare resource, a line feed and the sorted parameter lines joined by line feeds |
| `SharedKey.DollarParamsDropped` | storage.ts:91-101 | when every parameter starts with `$`, the resource is exactly `/{account}/{encodeURI(path)}` |
| `SharedKey.QueryOrderIndependent` | storage.ts:92-101 | the resource does not depend on the order of the query parameters |
| `SharedKey.BlobFields` | storage.ts:103-118 | definition: the blob and queue variant has 13 fields |
| `SharedKey.TableFields` | storage.ts:119-125 | definition: the table variant has 5 fields |
| `SharedKey.FieldsRecovered` | storage.ts:125 | joining fields without line feeds and splitting again gives each field back |
| `SharedKey.BlobStringToSignFields` | storage.ts:103-118 | the blob/queue string-to-sign reads back as the upper-cased method, Content-Encoding, Content-Language, the Content-Length slot, Content-MD5, Content-Type, an empty Date, the four conditional headers, Range, then the header block followed by the resource |
| `SharedKey.TableStringToSignFields` | storage.ts:119-125 | the table string-to-sign reads back as the upper-cased method, Content-MD5, Content-Type, x-ms-date and the resource |
| `SharedKey.ContentLengthSlot` | storage.ts:108 | the Content-Length slot is empty exactly for a missing, empty or `0` length |
| `SharedKey.StringToSignOrderIndependent` | storage.ts:103-125 | the string-to-sign does not depend on header order |
| `SharedKey.AuthorizationOrderIndependent` | storage.ts:127-132 | neither does the `Authorization` value |
| `SharedKey.TableIgnoresOtherHeaders` | storage.ts:119-125 | only Content-MD5, Content-Type and x-ms-date of the headers enter the table string-to-sign |
| `SharedKey.Authorization` | storage.ts:127-132 | signing succeeds exactly when a key is set (otherwise MissingAccountKey), and the value is `SharedKey {account}:` followed by base64(HMAC-SHA256(key, UTF-8 of the string-to-sign)) |
| `Url.EncodeURIUnchanged` | storage.ts:93 | `encodeURI` leaves a text unchanged exactly when it holds no character it escapes |
| `Url.DecodeComponentPlain` | storage.ts:80 | a parameter name or value without `%` or `+` is read back verbatim |
| `Url.DecodeComponentEscaped` | storage.ts:80 | percent-escaped UTF-8 is decoded back to the text |
| `Url.SingleParam` | storage.ts:80 | a single `name=value` query yields exactly that decoded parameter |
| `Url.AppendParam` | storage.ts:80 | one more `&name=value` adds exactly that parameter at the end |
| `Url.PathAndSearch` | storage.ts:79 | the path and the search never contain `?`, and a URL without `?` has an empty search |
| `Url.PathAndSearchAt` | storage.ts:79 | `path?search` is cut back into the two |
| `Utf8.DecodeEncode` | storage.ts:80 | UTF-8 encoding is injective: decoding the bytes gives the text back, which the query decoding relies on for percent-escaped text |
| `Utf8.AsciiSize` | queue.ts:45-47 | an ASCII text's byte length is its length |
| `Text.DecimalIsZero` | storage.ts:108 | a length renders as `0` exactly when it is zero |
| `TableRequests.PreparedHeader` | table.ts:41-64 | every header before signing: the caller's value, else the JSON body headers for post/put/merge in any case, else the five defaults |
| `TableRequests.PreparedKeys` | table.ts:41-64 | the prepared headers have distinct names and start with the five defaults in order |
| `TableRequests.SignedLast` | table.ts:66 | `Authorization` is added last, computed with the table variant over the prepared headers |
| `TableRequests.FilterAppends` | table.ts:90-98 | a filter adds `?$filter=` and the condition to a bare list, or ` and ` and the condition to a filtered one |
| `TableRequests.NoConditions` | table.ts:95 | without conditions the lists are the bare ones |
| `TableRequests.PartitionConditionsAppended` | table.ts:155 | extra conditions follow the partition condition as `and (…)` with no space after the quote |
| `TableRequests.FilterParam` | table.ts:95 | for an expression without `&`, the filter query holds exactly one parameter, `$filter`, with the decoded expression (with `&`, see `AmpersandConditionSigned`) |
| `TableRequests.FilteredListSignsBare` | table.ts:94-98 | a filtered list signs as the bare `{name}()` resource, for a table name without `?` and conditions without `?` or `&` |
| `TableRequests.AmpersandConditionSigned` | table.ts:94-98 | a condition holding `&name=value` ends the `$filter` parameter early, and the stray parameter is signed as a query line of the resource |
| `TableRequests.PartitionListSignsBare` | table.ts:126-130 | a partition list signs as the bare `{name}()` resource, for a table name without `?` and a partition key without `?` or `&` |
| `TableRequests.FilteredPartitionListSignsBare` | table.ts:154-158 | a filtered partition list signs as the bare `{name}()` resource, for a table name without `?` and a partition key and conditions without `?` or `&` |
| `TableRequests.EntitySignsBare` | table.ts:191-213 | for a table name, partition key and row key without `?`, an entity URL signs as itself, with no query lines |
| `TableRequests.IfMatch` | table.ts:199 | the `If-Match` value is `*` exactly when the eTag is missing, empty or `*` |
| `TableRequests.EntityBodyFields` | table.ts:183-188 | the post body starts with PartitionKey and RowKey, and a data field of the same name wins |
| `Storage.Table.Fetch` | table.ts:33-74 | the header assembly, the copy loop and the signing produce the table request over the initialized credentials, or the initialization failure |
| `Storage.Table.List` | table.ts:27-31 | a get of `{name}()` with the chosen Accept header, over the initialized credentials; the account's memo maps are unchanged |
| `Storage.Table.Partition` | table.ts:19-21 | definition: the partition of this table with the given key |
| `Storage.Table.Filter` | table.ts:23-25 | definition: a filtered view with that one condition |
| `Storage.FilteredTable.Filter` | table.ts:90-92 | definition: a new view with the condition added at the end |
| `Storage.FilteredTable.List` | table.ts:94-98 | a get of the filtered list URL, over the initialized credentials; the account's memo maps are unchanged |
| `Storage.TablePartition.Entity` | table.ts:118-120 | definition: the entity of this partition with the given row key |
| `Storage.TablePartition.Filter` | table.ts:122-124 | definition: a filtered partition with that one condition |
| `Storage.TablePartition.List` | table.ts:126-130 | a get of the partition list URL, over the initialized credentials; the account's memo maps are unchanged |
| `Storage.FilteredTablePartition.Filter` | table.ts:150-152 | definition: a new view with the condition added at the end |
| `Storage.FilteredTablePartition.List` | table.ts:154-158 | a get of the filtered partition list URL, over the initialized credentials; the account's memo maps are unchanged |
| `Storage.TableEntity.Post` | table.ts:183-189 | a post to the table name with the keys-first body, over the initialized credentials; the account's memo maps are unchanged |
| `Storage.TableEntity.Get` | table.ts:191-195 | a get of the entity URL, over the initialized credentials; the account's memo maps are unchanged |
| `Storage.TableEntity.Put` | table.ts:197-201 | a put of the data to the entity URL with the `If-Match` rule, over the initialized credentials; the account's memo maps are unchanged |
| `Storage.TableEntity.Merge` | table.ts:203-207 | a merge of the data to the entity URL with the `If-Match` rule, over the initialized credentials; the account's memo maps are unchanged |
| `Storage.TableEntity.Delete` | table.ts:209-213 | a delete of the entity URL with the `If-Match` rule, over the initialized credentials; the account's memo maps are unchanged |
| `BlobRequests.BaseFails` | container.ts:52-56 | header assembly fails, with MissingData, exactly for a block upload without data |
| `BlobRequests.PreparedHeader` | container.ts:45-61 | every header before signing: the caller's value, else `x-ms-blob-type: BlockBlob` and the data size for a block upload, else the three defaults |
| `BlobRequests.BlobTypeSigned` | container.ts:52-63 | a block upload signs `x-ms-blob-type:BlockBlob` unless the caller replaced it |
| `BlobRequests.SignedLast` | container.ts:63-67 | `Authorization` is added last, computed with the blob/queue variant over exactly the prepared headers (blob type and size included), which reach the request unchanged; the body is the data when there is some |
| `BlobRequests.UploadKinds` | container.ts:52 | for a container name and a file path without `?`, a put on the list URL is not a block upload and a put on the file is |
| `BlobRequests.DirectoryListExtends` | container.ts:98-100 | a directory list is the container list, plus `&prefix={path}` when the path is non-empty |
| `BlobRequests.ListParams` | container.ts:28 | the list query holds exactly `restype=container` and `comp=list` |
| `BlobRequests.DirectoryParams` | container.ts:99 | for a non-empty path without `&`, a directory list adds a third parameter, `prefix`, with the decoded path |
| `BlobRequests.ListResource` | container.ts:28 | for a container name without `?`, the container list signs its two parameters, `comp:list` before `restype:container` |
| `BlobRequests.DirectoryResource` | container.ts:99 | for a container name without `?` and a non-empty path without `?` or `&`, a directory list signs `comp`, `prefix`, `restype` in that order |
| `Storage.Container.Fetch` | container.ts:31-75 | initialize, then the header assembly and signing produce the blob request over the initialized credentials; failures are the initialization failure, MissingData, or a missing key |
| `Storage.Container.List` | container.ts:27-29 | a get of `{name}?restype=container&comp=list`, over the initialized credentials; the account's memo maps are unchanged |
| `Storage.Container.Dir` | container.ts:19-21 | definition: the directory of this container at the given path |
| `Storage.Container.File` | container.ts:23-25 | definition: the file of this container at the given path |
| `Storage.ContainerDirectory.File` | container.ts:94-96 | definition: a file of the same container at `dir/path` |
| `Storage.ContainerDirectory.List` | container.ts:98-100 | a get of the directory list URL, over the initialized credentials; the account's memo maps are unchanged |
| `Storage.ContainerFile.Put` | container.ts:120-124 | a block upload of the data to `{container}/{path}` with the caller's Content-Type, over the initialized credentials; the account's memo maps are unchanged |
| `Storage.ContainerFile.Get` | container.ts:126-128 | a get of `{container}/{path}`, over the initialized credentials; the account's memo maps are unchanged |
| `Storage.ContainerFile.Delete` | container.ts:130-132 | a delete of `{container}/{path}`, over the initialized credentials; the account's memo maps are unchanged |
| `QueueRequests.MessageVerbatim` | queue.ts:20 | the message stands unescaped between the opening and the closing tags |
| `QueueRequests.MessageInjective` | queue.ts:20 | different messages give different bodies |
| `QueueRequests.PreparedHeader` | queue.ts:33-53 | every header before signing: the caller's value, else the XML body headers for post/put/merge in any case, else the two defaults |
| `QueueRequests.SignedLast` | queue.ts:55 | `Authorization` is added last, computed with the blob/queue variant |
| `QueueRequests.PutLengthSigned` | queue.ts:19-23 | a message post signs its non-zero UTF-8 length |
| `QueueRequests.AsciiPutLength` | queue.ts:19-23 | an ASCII message is signed with its own length plus the length of the envelope |
| `Storage.Queue.Fetch` | queue.ts:25-63 | the header assembly, copy and signing produce the queue request over the initialized credentials |
| `Storage.Queue.Put` | queue.ts:19-23 | a post of the wrapped message to `{name}/messages`, over the initialized credentials; the account's memo maps are unchanged |
| `Tokens.NoExpiryExchanges` | app.ts:44 | with no recorded expiry a refresh always exchanges |
| `Tokens.SecretExchanges` | app.ts:43 | a non-empty client secret always exchanges |
| `Tokens.ExchangeAfterMargin` | app.ts:39-45 | with an empty secret and a valid expiry, an exchange happens exactly when now is more than thirty minutes past the expiry |
| `Tokens.ExpiryAfterExchange` | app.ts:62-63 | definition: the recorded expiry is an invalid date |
| `Tokens.OnlySecretAfterExchange` | app.ts:42-46 | after an exchange only the secret decides whether the next refresh exchanges |
| `Tokens.ClientCredentialsGrant` | app.ts:47-58 | the token request names the client-credentials grant, the client, its secret and the vault scope |
| `KeyVaultClient.AzureADApplication.Vault` | app.ts:31-36 | the same vault for a known name, otherwise a fresh one added under that name; no other entry changes |
| `KeyVaultClient.AzureADApplication.Refresh` | app.ts:38-65 | the token request is sent exactly when the refresh condition holds; a reply replaces the token and records the invalid expiry; a failed exchange changes nothing |
| `VaultRequests.HeaderValue` | vault.ts:27-40 | the bearer token, overridden by the caller, with `Content-Type: application/json` overriding the caller when there is data |
| `VaultRequests.MaxResultsOnlyWhenTruthy` | vault.ts:81-83 | `maxresults` is added exactly when `max` is a non-zero number |
| `VaultRequests.KeyPathInjective` | vault.ts:85-91 | for names and versions without `/`, different key names and versions give different key paths |
| `VaultRequests.KeyPathCollision` | vault.ts:85-91 | with a `/` in the name the path is ambiguous: the key `a/b` and the key `a` at version `b` share one path |
| `KeyVaultClient.KeyVault.Fetch` | vault.ts:20-42 | refresh, then the request of the vault rules with the token left by the refresh; a failed exchange fails the fetch |
| `KeyVaultClient.KeyVault.SecretNamed` | vault.ts:16-18 | definition: the secret of this vault with the given name |
| `KeyVaultClient.KeyVault.KeyNamed` | vault.ts:44-46 | definition: the key of this vault with the given name and no version |
| `KeyVaultClient.NewKey` | vault.ts:67-71 | definition: a missing or empty version is the empty version |
| `KeyVaultClient.Key.WithVersion` | vault.ts:73-79 | definition: the same key for an empty version, otherwise the key at the new version |
| `KeyVaultClient.Secret.Get` | vault.ts:57-59 | a GET of `/secrets/{name}?api-version=7.3`, after the refresh, whose new token and expiry are stated; the memo map is unchanged |
| `KeyVaultClient.Key.Versions` | vault.ts:81-83 | a GET of the versions URL, after the refresh, whose new token and expiry are stated; the memo map is unchanged |
| `KeyVaultClient.Key.Get` | vault.ts:85-87 | a GET of the key URL, with the version segment only when non-empty, after the refresh, whose new token and expiry are stated; the memo map is unchanged |
| `KeyVaultClient.Key.Sign` | vault.ts:89-91 | a POST of `{alg, value}` to the key's `sign` URL, after the refresh, whose new token and expiry are stated; the memo map is unchanged |

## Left out

- HMAC-SHA256, base64 and `JSON.stringify` are uninterpreted functions of a `Runtime` value. So the model proves which text is signed and where the signature goes, not the signature bytes.
- `fetch`, `Response` and `response.json()` are left out. Requests are returned, and the token endpoint's answer is an input.
- The clock is an input: the `x-ms-date` string, and `now` in milliseconds for `refresh`.
- `setMinutes` works in local time, so a daylight-saving change shifts the thirty-minute margin. The model subtracts exactly thirty minutes.
- `Storage.Container.Fetch`: the data is modelled by its byte size alone, since the body is passed through untouched.
- `Tokens.TokenRequest`: the form is kept as its fields. The `application/x-www-form-urlencoded` serialisation is not modelled.
- `Text.Lower`: case mapping is ASCII-only. `toLowerCase`/`toUpperCase` on non-ASCII header names and verbs is not modelled.
- `Records.Assign`: the for-in order of keys that look like array indices is not modelled. JavaScript visits those first, in numeric order; header names never look like that.
- `VaultRequests.VersionsUrl`: `max` is an unbounded integer written in decimal. A fractional or NaN `max`, and the exponent form JavaScript writes for magnitudes from 1e21 up (`1e+21`), are not modelled.
- Concurrent `refresh` and `initialize` calls, and the `console.log` in `Queue.put`, are left out.
- get.ts and put.ts are scripts against live services, and mod.ts only re-exports. None of them is part of this model.
