# redisbloom-go client core, modelled in Dafny

This project models the sequential core of the Go client for RedisBloom
(package `redis_bloom_go`):

- **Connection pools** (`pool.go`). `dialFuncWrapper` dials a host and sends
  `AUTH` only when a password is set. `testOnBorrow` probes a connection with
  `PING` once it has been idle for more than a millisecond. `NewSingleHostPool`
  builds one redigo pool. The multi-host pool keeps a host list and a lazily
  filled registry with one sub-pool per host. Its `Get` picks a host and
  creates that host's sub-pool on first use. Its `Close` closes every
  registered sub-pool, carries on past failures, and combines their errors
  into one message.
- **Request arguments** (`client.go`). `GetInsertArgs` and the option lists of
  `BfInsert`, `CfReserve` and `CmsMerge` are modelled. An optional keyword
  appears only for a positive value or a set flag, in a fixed order, and the
  items come last. The `tdMerge` request has a `numKeys < 1` guard and
  encodes its override flag as `"1"` or `""`.
- **Reply parsing** (`client.go`). `ParseInfoReply`, the loops of `Info` and
  `TopkInfo`, and `ParseTDigestInfo` turn a flat key/value reply into a map
  or a record. The model also covers the `BfScanDump`/`CfScanDump` reply
  shape and the result loop of `BfInsert`.
- **Client construction** (`client.go`). `NewClient` splits the address list
  on commas to choose a single-host or a multi-host pool. `NewClientFromPool`
  wraps a caller's pool.

Each state-changing or looping routine is a Dafny `method` whose contract ties
its result or new state to a specification function. The lemmas then state
what those functions mean:

- option lists read back to the values they encode;
- the last pair for a key wins, and the map has at most one entry per pair;
- the registry keeps at most one sub-pool per distinct host;
- the close error is empty exactly when every sub-pool closed cleanly, and
  otherwise names each failing host.

Files:

| file | module | contents |
|---|---|---|
| `wire.dfy` | `Wire` | replies, arguments, commands, outcomes (value, error, panic); redigo's `redis.Values`, `redis.String`, `redis.Int64` |
| `strconv.dfy` | `Strconv` | `strconv.FormatInt` and `strconv.ParseInt` in base 10 over int64, and the round-trip lemma between them |
| `strings.dfy` | `Strings` | `strings.Split` on one character, `strings.Join`, and their inverse lemmas |
| `pool.dfy` | `Pool` | everything modelled from `pool.go` |
| `client_args.dfy` | `ClientArgs` | argument builders, and readers that invert them |
| `client_replies.dfy` | `ClientReplies` | reply parsers and the fold they are proved against |
| `client.dfy` | `Client` | `NewClient`, `NewClientFromPool`, `tdMerge` and its wrappers, `BfInsert` |

Some inputs the Go code gets from outside are parameters here:

- the random host index (`rand.Intn`);
- the idle time of a borrowed connection, in nanoseconds (`time.Since`);
- the error each network exchange reports;
- the outcome of closing each redigo pool;
- the order of Go's map walk in `Close`, which comes back as the `order`
  out-parameter.

A Go panic from a failed type assertion is the `Panic` case of `Outcome`.

`NewMultiHostPool` (pool.go:60-66) accepts an empty host list. The model
follows the code, and `Get` cannot be called on it.

## Model

| member | source | states |
|---|---|---|
| Pool.Dial | pool.go:87-98 | A TCP dial to the host always comes first. If the dial fails, its error is returned and nothing else is sent. `AUTH` with the password is sent exactly when the dial succeeded and a password is set, and then the AUTH error is the result. |
| Pool.TestOnBorrow | pool.go:100-105 | `PING` is sent exactly when the idle time exceeds 1 ms (1,000,000 ns). The result is the PING error, or no error when no probe is sent. |
| Pool.RedisPool.constructor | pool.go:26-31 | A new redigo pool records its host, password, MaxIdle and borrow probe, and starts open. |
| Pool.RedisPool.Close | pool.go:47 | Closing a sub-pool marks it closed and reports the given close outcome. |
| Pool.NewSingleHostPool | pool.go:26-34 | A fresh, open pool for the host, with the given password, the `testOnBorrow` probe and `MaxIdle = maxConns = 500` (client.go:14). |
| Pool.MultiHostPool.constructor | pool.go:60-66 | The host list is kept exactly as given, duplicates included. The password is kept and the registry starts empty. |
| Pool.MultiHostPool.Get | pool.go:68-85 | With `hosts[choice]` as the random pick, the registry afterwards has an entry for that host and the connection comes from it. An existing entry is reused and nothing changes. Otherwise exactly one fresh, open sub-pool is added for that host, configured with the shared password, probe and MaxIdle. No other entry changes. The registry invariant is kept: keys come from the host list, each sub-pool is configured for its own key, and no two keys share a sub-pool. |
| Pool.MultiHostPool.Close | pool.go:43-58 | Every registered sub-pool is visited once, in some order, and is closed afterwards, even after earlier failures. The registry is not purged. The error is the failure messages joined by spaces in visiting order, and it is nil exactly when every sub-pool closed cleanly. |
| Pool.ConnPoolGet | pool.go:12-15 | `ConnPool.Get` on the `ConnPool` sum of both pool kinds. A single-host pool lends from its own redigo pool. A multi-host pool lends from the sub-pool of `hosts[choice]`, keeping its registry invariant and every existing entry. |
| Pool.ConnPoolClose | pool.go:12-15 | `ConnPool.Close`: a single-host pool ends closed and reports its close outcome. A multi-host pool keeps its registry, closes every sub-pool, and reports no error exactly when every sub-pool closed cleanly. |
| Pool.CloseErrorNone | pool.go:46-57 | The combined close error is nil exactly when no visited sub-pool failed. An empty registry therefore gives nil. |
| Pool.CloseErrorNamesFailures | pool.go:50-54 | For every failing host, the combined close error contains `Error closing pool for host <h>. Got <cause>.` |
| Pool.RegistryBound | pool.go:72-82 | Because registry keys come from the host list, there are at most as many sub-pools as distinct hosts, and never more than hosts. |
| Pool.SingleHostRegistry | pool.go:72-82 | When every entry of the host list is the same host and that host is registered, the registry holds exactly one sub-pool, whatever indices were chosen. |
| Wire.Values | client.go:139 | `redis.Values`: an incoming error passes through unchanged. Only an array converts, to its elements. Nil and other reply types are errors, and it never panics. |
| Wire.AsString | client.go:148 | `redis.String`: status and bulk strings convert to their text. Every other reply is an error, never a panic. |
| Wire.AsInt64 | client.go:152 | `redis.Int64`: an integer reply converts to itself. A bulk string that `strconv.ParseInt` accepts converts to the parsed value, and one it rejects does not convert. Every other reply is an error, never a panic. |
| Strconv.ParseInt | client.go:152 | `strconv.ParseInt(s, 10, 64)`: empty text is rejected, and accepted text is at least one decimal digit after an optional sign. |
| Strconv.ParseIntDecimal | client.go:152 | Digits with an optional `+` parse to their decimal value when it is at most the int64 maximum, and otherwise give the range error. After `-`, they parse to the negated value down to the int64 minimum, and otherwise give the range error. An empty string or a lone sign is the syntax error. |
| Strconv.ScanDecimal | client.go:152 | The unsigned digit scan inside `strconv.ParseInt` gives the decimal value of the digits when it is at most the uint64 maximum, and the range error otherwise. |
| Strconv.FormatInt | client.go:314 | `strconv.FormatInt(n, 10)`: a minus sign exactly for negative n, then digits whose decimal value is \|n\|, with no leading zero unless n is 0. |
| Strconv.FormatIntRoundTrip | client.go:314 | `ParseInt` reads back every int64 that `FormatInt` wrote. |
| Strings.Split | client.go:73 | `strings.Split` always yields at least one piece. |
| Strings.SplitPieces | client.go:73 | Split yields one piece more than the text has separators, and no piece contains the separator. |
| Strings.Join | client.go:543 | `strings.Join`: no parts give the empty string. The result starts with the first part, and with the first part and the separator when there are two or more parts. |
| Strings.JoinSplit | client.go:73 | Joining the pieces of a split with the separator gives the text back. |
| Strings.SplitJoin | client.go:543 | Splitting a join of one or more separator-free pieces gives the pieces back. |
| ClientArgs.GetInsertArgs | client.go:437-447 | The result is the key, then `CAPACITY cap` only when cap > 0, then `NOCREATE` only when set, then `ITEMS` and the items in order. Length is 2 + \|items\| + (cap>0 ? 2 : 0) + (noCreate ? 1 : 0). |
| ClientArgs.InsertArgsRoundTrip | client.go:437-447 | Reading the list back recovers the key and the items in order. It finds `CAPACITY` exactly when cap > 0, with cap as its value, and `NOCREATE` exactly when the flag is set. |
| ClientArgs.BuildBfInsertArgs | client.go:210-226 | The key, then CAPACITY, ERROR and EXPANSION each with its value only when positive, then NOCREATE and NONSCALING only when set, then ITEMS and the items. The length formula holds. |
| ClientArgs.BfInsertArgsRoundTrip | client.go:210-226 | Reading the BF.INSERT list back recovers the key, each option exactly when its value is positive or its flag is set, and the items in order. |
| ClientArgs.BuildCfReserveArgs | client.go:394-404 | The key and the capacity, then BUCKETSIZE, MAXITERATIONS and EXPANSION each only when positive. The length formula holds. |
| ClientArgs.CfReserveArgsRoundTrip | client.go:394-404 | Reading the CF.RESERVE list back recovers the key, the capacity and each option exactly when it is positive. |
| ClientArgs.BuildCmsMergeArgs | client.go:376-379 | The destination, the number of sources, the sources in order, then `WEIGHTS` and the weights only when there are weights. The length formula holds. |
| ClientArgs.CmsMergeArgsRoundTrip | client.go:376-379 | Reading the CMS.MERGE list back recovers the destination, the sources and the weights exactly. |
| ClientReplies.FoldPairsOk | client.go:618-621 | Folding a reply's pairs succeeds exactly when every pair reads. |
| ClientReplies.FoldPairsLookup | client.go:618-621 | After a successful fold, a key is present exactly when some pair reads as that key. Its value is the one of the last such pair, so later duplicates overwrite earlier ones, and the map has at most \|values\|/2 entries. |
| ClientReplies.ParseInfoReply | client.go:611-623 | An incoming error passes through unchanged, and an odd length is the error `expects even number of values result`. Otherwise the result is the fold of the pairs: a status-string key maps to an int64 value. |
| ClientReplies.InfoReplyMeaning | client.go:611-623 | For an even-length reply the result is a map exactly when every key is a status string and every value an integer. Otherwise the source panics, and never returns an error. Each key maps to the integer of its last pair, and the map has at most \|values\|/2 entries. |
| ClientReplies.Info | client.go:131-158 | The exchange error and then the `redis.Values` error pass through, and an odd length is `Info expects even number of values result`. Otherwise the result is the fold with `redis.String` keys and `redis.Int64` values: the first unreadable key or value is the error, and it never panics. |
| ClientReplies.TopkInfo | client.go:294-320 | A `redis.Values` error passes through, and an odd length is `expects even number of values result`. Otherwise the result is the fold of the pairs: a non-string key panics, a bulk-string value is kept as text, an integer becomes its decimal text, and any other value is the error `unexpected element type for (Ints,String), got type <T>`. |
| ClientReplies.TopkLastEntry | client.go:306-317 | When every pair reads, the text TopkInfo keeps for a key comes from the last pair with that status-string key: the decimal text of an integer value, or a bulk string's own text. |
| ClientReplies.TopkStoredValues | client.go:306-317 | After a successful TopkInfo read, a key is present exactly when some pair has it as a status-string key. If the last such pair carries the integer n, the stored text is n in decimal and parses back to n. If it carries a bulk string, that string is stored unchanged. |
| ClientReplies.SetField | client.go:634-656 | Setting the field a recognised T-Digest label names changes that field and no other. |
| ClientReplies.ParseTDigestInfo | client.go:625-661 | The corrected version returns the `redis.Values` error when that conversion fails. An odd length is `ParseInfo expects even number of values result`. An unreadable key or recognised value gives that error with a zeroed record. A nil error implies the reply was an even-length array, and the record is then the fold of its pairs. |
| ClientReplies.TDigestFields | client.go:634-658 | In a successful read, each recognised field holds the integer of the last pair with its label. A field no pair names stays 0, so unrecognised labels change nothing. |
| ClientReplies.ParseTDigestInfoAsWritten | client.go:625-629 | As written, a failing `redis.Values` yields a zeroed record and the incoming error, which may be nil. |
| ClientReplies.TDigestAsWrittenLosesError | client.go:626-629 | As written, a direct call of the exported parser with an integer or nil reply and no error, such as `ParseTDigestInfo(int64(5), nil)`, gives a zeroed record and no error. |
| ClientReplies.TdInfo | client.go:605-609 | `TdInfo` applies `redis.Values` before the parser. A reply that is not an array, or a transport error, therefore comes back as that error with a zeroed record, even through the parser as written. No error implies an even-length array. |
| ClientReplies.ScanDump | client.go:185-197 | The reply shape of `BfScanDump`, and equally of `CfScanDump` (client.go:471-483). The call fails exactly when `redis.Values` does. A chunk is returned exactly for a two-element array of an integer and a bulk string, together with that integer. A two-element array with another first element, or with a second that is neither nil nor a bulk string, panics. A two-element array of an integer and nil gives that integer as the iterator and no chunk. Any other length silently gives iterator 0, no chunk and no error. |
| ClientReplies.CollectInts | client.go:233-240 | The results are the integers of the longest prefix of the reply array whose elements `redis.Int64` converts. When the loop stops early, the error is the conversion error of the first element that fails; otherwise there is no error. |
| Client.SplitAddresses | client.go:73-74 | The comma split of an address list has one piece exactly when there is no comma, and that piece is then the whole address. Joining the pieces with commas gives the address back. |
| Client.NewClient | client.go:72-85 | An address without a comma gets a fresh single-host pool for that address. An address with a comma gets a fresh multi-host pool over all its pieces in order, at least two of them, with the password and an empty registry. The name is kept. |
| Client.NewClientFromPool | client.go:88-94 | The client wraps the caller's own pool, not a copy, and keeps the name. |
| Client.TdMergeCommand | client.go:530-546 | With `numKeys < 1` the call fails with `a minimum of one key must be merged` and sends nothing. Otherwise the request is TDIGEST.MERGE with six arguments, the last being `"1"` when override is set and `""` otherwise. |
| Client.TdMergeRoundTrip | client.go:537-545 | With at least one key wanted and at least one source key, none containing a space, the request reads back as the destination, the key count, the source keys, the compression and the override flag. |
| Client.TdMerge | client.go:549-551 | The call fails exactly when numKeys < 1. Otherwise the request reads back with the destination, the key count, compression 100 and no override. |
| Client.TdMergeWithCompression | client.go:554-556 | The call fails exactly when numKeys < 1. Otherwise the request reads back with the destination, the key count, the given compression and no override. |
| Client.TdMergeWithOverrideAsWritten | client.go:559-561 | As written, the call fails exactly when numKeys < 1. Otherwise the request reads back with the destination, the key count, compression 100 and override set, whatever override was asked for. |
| Client.TdMergeWithOverrideIgnoresFlag | client.go:559-561 | As written, asking for no override still sends the override flag. |
| Client.TdMergeWithOverride | client.go:558-561 | The corrected version fails exactly when numKeys < 1. Otherwise the request reads back with the destination, the key count, compression 100 and the override flag the caller asked for. |
| Client.TdMergeWithCompressionAndOverride | client.go:565-567 | The call fails exactly when numKeys < 1. Otherwise the request reads back with the destination, the key count, the given compression and override set. |
| Client.BfInsert | client.go:207-242 | The request sent is BF.INSERT with the BfInsert option layout. A `redis.Values` failure gives no results and that error. Otherwise the results are the longest prefix of the reply that converts to integers, with the first failure as the error. No error means every element converted. |

## Left out

- Networking and the redigo library are not modelled. That covers `redis.Dial`, `conn.Do`, and the redigo pool's idle list, MaxIdle eviction, borrowing and behaviour on a second close. A sub-pool is its configuration and a closed flag, and each exchange's result is an input. "Already closed is not an error" therefore comes from redigo, not from this model.
- Every client method borrows a connection and closes it with `defer conn.Close()`. Those steps are not modelled. Each operation is modelled from the request it builds and the reply it is given.
- The `sync.Mutex` in `MultiHostPool` is not modelled, because it is concurrency control. `Get` and `Close` are sequential, atomic methods.
- `math/rand` and `time.Since` are parameters: the chosen host index, and the idle time in nanoseconds.
- Pool.MultiHostPool.Get: `rand.Intn(0)` panics on an empty host list. The model requires a valid index instead of returning a panic outcome.
- Pool.MultiHostPool.Get: the borrow from the chosen sub-pool (dial and borrow probe) is not composed in. The connection only records which sub-pool it came from.
- `ConnPool` is a datatype with a single-host case and a multi-host case, not an interface, because traits are not used here. `Pool.ConnPoolGet` and `Pool.ConnPoolClose` dispatch on it. The single-host case also stands for `SingleHostPool`'s wrapper struct.
- Floating point is not modelled: `strconv.FormatFloat` in `Reserve`, `TopkReserve` and `TdCdf`, and `redis.Float64`/`redis.Float64s` in `TdMin`, `TdMax`, `TdQuantile` and `TdCdf`. The BF.INSERT error ratio is a real number, and only its sign test decides whether ERROR is sent.
- Some commands build their arguments from a Go map in unspecified order: `TopkIncrBy`, `CmsIncrBy` and `TdAdd`. Their argument order cannot be stated, so they are not modelled.
- The one-line command wrappers have no logic of their own and are not modelled. That covers `Reserve`, `Add`, `Exists`, `BfAddMulti`, `BfExistsMulti`, `BfLoadChunk`, `TopkAdd`, `TopkCount`, `TopkQuery`, `TopkList`, `CmsInitByDim`, `CmsInitByProb`, `CmsQuery`, `CfAdd`, `CfAddNx`, `CfInsert`, `CfInsertNx`, `CfExists`, `CfDel`, `CfCount`, `CfLoadChunk`, `TdCreate`, `TdReset`, `TdMin`, `TdMax`, `TdQuantile` and `TdCdf`. `TopkListWithCount`, `CmsInfo` and `CfInfo` pass the `redis.Values` result straight to `ParseInfoReply`, which is modelled.
- The `TDigestInfo` getters (`Compression` … `TotalCompressions`) are plain field reads and are not modelled.
- Client.TdMergeCommand: the reply conversion through `redis.String` is `Wire.AsString` and is not composed in. The source does not check `numKeys` against the number of source keys, and neither does the model.
- Strconv.ParseInt: the error text inserts the input as it is, where Go quotes it with `strconv.Quote`. The two differ only for inputs that need escaping.
- Bulk strings (`[]byte`) are modelled as character strings, one character per byte, with no encoding.
- The test files are not modelled, because they need a live server.

## Findings

| source | as written | input that shows it | evidently intended | confidence | as-written member | corrected member |
|---|---|---|---|---|---|---|
| client.go:626-629 | When `redis.Values` fails, the exported `ParseTDigestInfo` returns the incoming `err` instead of the conversion error `outErr`. This affects direct callers only: `TdInfo` (client.go:608) applies `redis.Values` first and still reports the error (`ClientReplies.TdInfo`). | The direct call `ParseTDigestInfo(int64(5), nil)`, or one with a nil reply, gives a zeroed `TDigestInfo` and a nil error. | Return `outErr`, so that a reply that is not an array is reported. | high; not executed | ClientReplies.ParseTDigestInfoAsWritten | ClientReplies.ParseTDigestInfo |
| client.go:559-561 | `TdMergeWithOverride` ignores its `override` parameter and always passes `true`. | `TdMergeWithOverride("to", false, 1, "from")` sends the override flag `"1"`. | Pass `override` through to `tdMerge`. | high; not executed | Client.TdMergeWithOverrideAsWritten | Client.TdMergeWithOverride |
