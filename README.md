# omg.lol DNS records for Terraform, in Dafny

This is a model of the DNS-record logic in the Terraform provider for omg.lol
(`femnad/terraform-provider-omglol`). It covers three parts:

- The two REST clients that list, get, create and delete the DNS records of an
  omg.lol address:
  - the legacy one, whose list endpoint carries `id` and `ttl` as decimal strings;
  - the newer one, whose list endpoint carries them as integers.
- The legacy SDK data source and resource built on the legacy client.
- The credential resolution of the newer provider's `Configure`.

The repository's Go code is imperative, and so is the model. Operations with a
loop or a sequence of steps are methods with the source's loops and early
returns: the searches, create, the delete loops, the adapters and `Configure`.
Each is proved against specification functions, and lemmas state what those
functions mean. The operations that are a single straight-line return are
functions with contracts: `NewClient`, the newer `getRecords` and both
`doDeleteRecord`s.

### Modules

- `Wrappers`: `Option` and `Result`.
- `Decimal`: Go's `strconv.Itoa` and `strconv.Atoi` on a 64-bit `int`.
  - `Atoi` accepts an optional sign followed by at least one ASCII digit, within the `int64` range.
  - The round trip `Atoi(Itoa(n)) == n` is proved for every 64-bit `n`; that
    `Itoa` is injective follows from it. The other direction, `Itoa(Atoi(s))`,
    is not stated: it fails for inputs such as "+5" or "007".
- `Records`: the record type and the omitempty JSON payload `json.Marshal`
  writes for it, with a reader that inverts it. It also holds the searches
  over a listed sequence: first index by id, first index by name, and count by id.
- `Api`: the HTTP side both clients share.
  - A reply is a transport failure, or a status with a body that is unreadable, malformed or a decoded envelope.
  - The status threshold of 400.
  - The collection and item URLs.
  - The requests the clients send.
  - `DeleteRun`, the specification of verify-then-delete.
- `LegacyClient`: `omglol/client.go`.
- `OmglolClient`: `internal/omglol/client.go`, with operations on the `Client` value.
- `Sdk`: the part of the SDK's `ResourceData` the legacy adapters use, as a class.
  The configuration is read-only; the id and the state attributes are updated in place.
- `LegacyDataSource`: `omglol/data_source_dns.go`.
- `LegacyResource`: `omglol/resource_dns.go`.
- `Provider`: `internal/provider/provider.go` `Configure`.
- `Server`: a server that tells the truth, holding its records as a sequence.
  - A POST stores the decoded payload under a fresh id.
  - An accepted delete drops the records with the id.
  - Against it, the two clients list the same records.
  - A created record is then found by its id, and a deleted one is not found.

### How the effects are modelled

- **Requests.** Every client operation returns `sent`, the requests it
  attempted, in order. "Always lists first" and "no DELETE when the id is absent" can then
  be stated.
- **Replies.** The reply to each exchange is an input.
- **The DELETE loop.** The k-th DELETE's reply is `deleteReply(k)`.
- **Map order.** Go's iteration order over `setResourceData`'s three-entry map is an `order` parameter.
  It may be any order of the three keys.
- **Failing `Set` calls.** The keys whose `ResourceData.Set` fails are the `refused` set.
- **The environment.** `os.Getenv` reads an `env` map; a variable that is not set reads as "".

### Where the specification and the code disagree

The model follows the code wherever the two differ:

- The specification says the client accepts `id` and `ttl` in both shapes,
  strings or integers. The legacy client decodes only the string shape; the
  newer client decodes only the integer shape.
- The specification says a malformed entry is a propagated decode error. In
  the legacy `getRecords`, an entry whose `id` or `ttl` does not parse ends
  the list. The entries before it are returned, together with the nil decode
  error, so the parse failure is never reported (omglol/client.go:84-92).
  `LegacyClient.ConvertedIsParsedPrefix` states this.
- The specification's `APIError{status, body}` carries the status. The
  code's error carries only the body (omglol/client.go:156, 195), and so does
  `ApiError(op, body)`.
- The specification says a created record's id is non-zero. The code copies
  whatever id the reply holds (omglol/client.go:165), which is 0 when the
  reply leaves it out. `CreateRecord`'s contract says exactly that: the id is
  `AssignedId(reply)`.

`Server.ListingsAgree` proves the shapes agree where they overlap: an honest
server's string-shaped listing, read by the legacy client, and its
integer-shaped listing, read by the newer client, give the same records.

## Model

| member | source | states |
|---|---|---|
| Decimal.Itoa | omglol/resource_dns.go:51 | the decimal string is non-empty and starts with '-' exactly for a negative number |
| Decimal.AtoiItoa | omglol/resource_dns.go:51-60 | parsing the decimal string of any 64-bit integer gives that integer back, so the id stored at create is the id Read and Delete use |
| Decimal.ItoaInjective | omglol/data_source_dns.go:52-54 | two 64-bit integers with the same decimal string are equal, so an id string names one record |
| Records.MarshalMembers | omglol/client.go:38-46 | the create payload holds, for each JSON key, exactly the record's field when it is non-zero and no member when it is zero (omitempty) |
| Records.MarshalRoundTrip | omglol/client.go:132 | reading the payload back gives exactly the record: omitting zero fields loses nothing |
| Records.IndexOfId | omglol/client.go:114-118 | the index of the first record with the id; all earlier records have other ids; the length of the list when none has it |
| Records.IndexOfName | omglol/data_source_dns.go:50-51 | the index of the first record with the name; all earlier records have other names; the length of the list when none has it |
| Records.CountIdZero | omglol/client.go:207-209 | no record matches the id exactly when the match count is 0, exactly when the first-match search finds nothing |
| Api.Received | omglol/client.go:71-81 | a reply yields its envelope exactly when the exchange completed, the body was read and it decoded; the status is not looked at |
| Api.DeleteRunStopsAtFirstError | omglol/client.go:207-216 | the DELETEs stop at the first failure, which is returned; every one before it succeeded; with no failure every match gets a DELETE and the result is nil |
| Api.DeleteRunAllSucceed | internal/omglol/client.go:182-191 | when every DELETE succeeds, each match gets one and the result is nil |
| Api.ItemUrlNamesId | omglol/client.go:171 | the DELETE URL is the collection URL, a '/', and a segment that parses back to the id; distinct ids give distinct URLs |
| LegacyClient.CanonicalFields | omglol/client.go:83-103 | an entry converts exactly when its id and ttl both parse; the record's id and ttl are those parses and its other fields are copied unchanged |
| LegacyClient.ConvertedIsParsedPrefix | omglol/client.go:83-105 | the converted list is a prefix, entry by entry the conversions, and stops only at an entry that does not convert |
| LegacyClient.ConvertedKeepsAll | omglol/client.go:83-105 | when every entry converts, the list keeps the length and the order of the decoded list |
| LegacyClient.ConvertedStopsAtFirstFailure | omglol/client.go:84-92 | an entry that fails to parse truncates the list to the entries before it |
| LegacyClient.Listed | omglol/client.go:60-106 | the listing is the converted decoded list with nil, or no records with the transport, read or decode error |
| LegacyClient.ToWires | omglol/client.go:19-27 | the string-shaped listing of records has one entry per record |
| LegacyClient.CanonicalToWire | omglol/client.go:83-103 | a record written with a decimal id and ttl converts back to itself |
| LegacyClient.ConvertedToWires | omglol/client.go:83-105 | a string-shaped listing of records converts back to exactly those records |
| LegacyClient.GetRecords | omglol/client.go:60-106 | one list request; the records and the error are those of the listing, including the silent truncation |
| LegacyClient.GetRecord | omglol/client.go:108-121 | one list request; the first record with the id; otherwise the zero record and a not-found error; a list error is passed on with the zero record |
| LegacyClient.CreateRecord | omglol/client.go:123-167 | one POST of the payload; at status 400 or more the unchanged record and the body's error; on an accepted reply the record with only its id replaced by the assigned one |
| LegacyClient.DoDeleteRecord | omglol/client.go:169-199 | fails exactly when the exchange fails or the status is 400 or more, then carrying the reply body |
| LegacyClient.DeleteListed | omglol/client.go:207-216 | one DELETE of the item URL per listed record with the id, in the stop-at-first-error run |
| LegacyClient.DeleteRecord | omglol/client.go:201-217 | the list request comes first; a list error means no DELETE; otherwise the DELETEs follow the run over the matches; an absent id means no DELETE and nil |
| OmglolClient.NewClient | internal/omglol/client.go:53-55 | never fails, and stores username and API key verbatim |
| OmglolClient.Client.GetRecords | internal/omglol/client.go:57-81 | the decoded list unchanged with nil, or no records and the transport, read or decode error |
| OmglolClient.Client.GetRecord | internal/omglol/client.go:83-96 | one list request; the first record with the id; otherwise the zero record and a not-found error; a list error is passed on |
| OmglolClient.Client.CreateRecord | internal/omglol/client.go:98-142 | one POST of the payload; at status 400 or more the unchanged record and the body's error; on acceptance only the id is replaced |
| OmglolClient.Client.DoDeleteRecord | internal/omglol/client.go:144-174 | fails exactly when the exchange fails or the status is 400 or more, then carrying the reply body |
| OmglolClient.Client.DeleteListed | internal/omglol/client.go:182-189 | one DELETE of the item URL per listed record with the id, in the stop-at-first-error run |
| OmglolClient.Client.DeleteRecord | internal/omglol/client.go:176-192 | the list request comes first; a list error means no DELETE; otherwise the DELETEs follow the run over the matches; an absent id means no DELETE and nil |
| Sdk.ResourceData.SetId | omglol/data_source_dns.go:54 | replaces the resource id and nothing else |
| Sdk.ResourceData.Set | omglol/data_source_dns.go:76-79 | writes one state attribute, or returns that key's error and leaves the state as it was |
| LegacyDataSource.Mapping | omglol/data_source_dns.go:69-73 | the attributes written are exactly data, ttl and type |
| LegacyDataSource.FirstRefused | omglol/data_source_dns.go:75-80 | the position of the first key whose Set fails; every earlier key succeeds |
| LegacyDataSource.WrittenKeys | omglol/data_source_dns.go:75-80 | writing a key sequence sets exactly those keys to their mapped values and leaves every other key as it was |
| LegacyDataSource.IterationOrderKeys | omglol/data_source_dns.go:75 | any iteration order visits exactly the three mapped keys |
| LegacyDataSource.StoredFootprint | omglol/data_source_dns.go:68-83 | name and id are never written; on success data, ttl and type hold the record's values; a failure names a refused mapped key |
| LegacyDataSource.StoredReadsBack | omglol/data_source_dns.go:68-83 | after a successful store, data, ttl and type read back as the record's data, TTL and type |
| LegacyDataSource.SetResourceData | omglol/data_source_dns.go:68-83 | sets the keys in iteration order up to the first refused one, and returns that key's error or nil |
| LegacyDataSource.Read | omglol/data_source_dns.go:41-66 | one list request; a list error before any name is compared; on the first record with the name, the id is its decimal id and its fields are stored; with no such record an error naming it and nothing written |
| LegacyResource.RecordFromData | omglol/resource_dns.go:78-92 | the configured name, type and data, the configured TTL or 3600, id 0 and no timestamps |
| LegacyResource.CreatePayload | omglol/resource_dns.go:34-38 | a new resource's payload never carries an id; it carries the TTL unless that is 0 (3600 when unset) and reads back as the record |
| LegacyResource.Create | omglol/resource_dns.go:43-55 | POSTs the configured record; on success the id is the decimal assigned id and parses back to it; on failure the error and the id unchanged |
| LegacyResource.Read | omglol/resource_dns.go:57-76 | a stored id that does not parse fails with no request; otherwise the record with that id is stored, or the fetch error or not-found is returned with the state unchanged |
| LegacyResource.Update | omglol/resource_dns.go:94-96 | returns no diagnostics |
| LegacyResource.Delete | omglol/resource_dns.go:98-112 | a stored id that does not parse fails with no request; otherwise verify-then-delete for the parsed id |
| Provider.StringValue.ValueString | internal/provider/provider.go:72-77 | the known string, "" for null or unknown |
| Provider.Resolve | internal/provider/provider.go:69-77 | a non-null configured value wins even when it is ""; null falls back to the environment |
| Provider.Configure | internal/provider/provider.go:43-110 | config errors alone returned; unknown values reported per attribute before any environment read; otherwise both variables read, configured values win, each empty result reported independently; a client from exactly the resolved values, the same for resources and data sources, only when no error was reported |
| Server.ListingsAgree | omglol/client.go:83-105 | both clients list exactly an honest server's records, in its order, from the string and the integer shapes |
| Server.AcceptedDeletes | internal/omglol/client.go:176-192 | with every DELETE accepted, both clients issue one DELETE per record with the id, none when it is absent, and return nil |
| Server.LegacyCreateThenGet | omglol/client.go:108-167 | on a server where the id is free, a created record gets that id, and get-by-id then returns exactly the created record with nil |
| Server.CreateThenGet | internal/omglol/client.go:83-142 | the same for the newer client; the server then holds its old records followed by the created one |
| Server.LegacyDeleteThenGet | omglol/client.go:201-217 | deleting issues one DELETE per record with the id and returns nil; once they are dropped, get-by-id returns the zero record and not-found |
| Server.DeleteThenGet | internal/omglol/client.go:176-192 | the same for the newer client |
| Server.RejectedCreate | internal/omglol/client.go:126-132 | a create refused with a status of 400 or more returns the record unchanged and the reply body as the error |
| Server.RecordLifecycle | internal/omglol/client.go:83-192 | create {A, test, 1.2.3.4, 3600} where 42 is free; get 42 returns those fields with id 42; delete 42 issues one DELETE with nil; get 42 is then not found |

## Left out

- The HTTP transport is not modelled: `http.Client`, the 60-second timeout,
  header maps, closing bodies. A failed `url.Parse` or `client.Do` is a
  `NoReply` with a reason.
- `sent` lists the requests the client attempted. A request is listed even
  when `url.Parse` refuses its URL and nothing is sent, for example a
  username holding `%zz` or a control character (omglol/client.go:64-67,
  127-130, 173-176; internal/omglol/client.go:61-64, 102-105, 148-151).
- JSON decoding is not modelled: the decoded envelope is an input. Only
  omitempty field presence in the create payload is stated.
- Error texts are not modelled; errors are constructors with their data.
  - The legacy `getRecord` formats its not-found message with `%s` on an int,
    which prints as `%!s(int=5)`. Both clients give `RecordNotFound(id)`.
  - The missing-username diagnostic's detail text says "API key". Diagnostics
    are modelled as attribute plus problem.
- List operations ignore the HTTP status, as the source does: a 4xx body that
  decodes is read as an empty or partial list.
- The SDK's `Set` rules are not modelled; which keys it refuses is the
  `refused` parameter. For example, the data source schema declares `ttl` a
  string while `setResourceData` writes an int.
- Go's map iteration order is a parameter, not randomness.
- Concurrency is not modelled. The race between the verification list and the DELETE is outside the model.
- The framework plumbing of `Configure` is not modelled: decoding the
  configuration into the model is an input, `configDiags`. Resource and
  data-source schemas, `Metadata`, `Schema`, `Resources` and `DataSources`
  are left out as well.
- `internal/provider/dns_resource.go` is not part of this model. It is a
  framework adapter of field copies.
- `internal/omglol/data_source_dns.go` is not part of this model. It is framework glue.
- `omglol/provider.go` is not part of this model. It copies two
  configuration strings into `auth` (`LegacyClient.Auth` here).
- `main.go` is not part of this model. It is process startup.
- The `NewClient` error branch in `Configure` cannot be taken, because
  `NewClient` never fails. The model keeps it as the source has it.
