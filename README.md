# cacheman-redis store, modelled in Dafny

This project models `RedisStore`, the key-value cache adapter of
cacheman-redis, in all three of its versions:

- the current store, `src/index.js`, with `get`, `set`, `del`, `clear` and `scan`;
- the transpiled store, `lib/index.js`, with a pattern-capable `del` built on a private `_del`;
- the original store, `index.js`, which has no namespace and a `clear(key, fn)`.

The server behind the client is a map from keys to entries. Each entry holds a
payload and the expiry it was written with. The Redis client is a class
(`Backend.Client`). Its `data` and `log` fields change command by command, and
each store method is proved against that state.

The verified properties:

- **Namespacing.** A backing key is the prefix followed by the key. Removing
  the prefix gives the key back. Two keys in the same namespace never share a
  backing key.
- **Values.** A value round-trips through JSON. This is proved over a small
  JSON codec, not assumed. A serializable value read back after an accepted
  write is the value written.
- **TTL policy.** `-1` means `SET` with no expiry. A missing or zero `ttl`
  means 60 seconds. Any other number is sent as given, and the server refuses
  a `ttl` below -1.
- **Bulk delete.** The callbacks of the shared countdown are characterised for
  every sequence of delete outcomes.
- **Scan.** Each entry of a page is the page key with the prefix removed,
  paired with what a read of it returns. The first failing read ends the scan
  with its error.
- **Constructor.** The client is chosen with the precedence the code uses.

Failures of the server are inputs: an `Option<Error>` for one command, or a
function from keys to failures for commands issued per key. A failed command
leaves the data unchanged.

Where the code differs from its doc comments, its tests or what a caller would
expect, the model follows the code:

- **Literal `del` in src.** `src/index.js` documents `del` as pattern-capable
  but sends one literal `DEL` (`StoreSrc.Store.Del`). Only `lib/index.js`
  routes `del` through pattern deletion (`StoreLib.Store.Del`).
- **One call per failure.** The countdown calls `fn(err)` once for every
  failed delete, not once per bulk delete. Latching the counter to zero stops
  only the success callback (`Countdown.EachFailureReported`).
- **Silent empty clear in index.js.** The original `clear` has no zero-match
  exit, so with nothing matched its callback is never called
  (`StoreOld.EmptyClearSilent`).
- **Refused `ttl = -1` in index.js.** The original `set` sends `SETEX key -1`
  for `ttl = -1`, which the server refuses (`StoreOld.NeverExpireRefused`).
  The repository's own test of a key that never expires (test/test.js:120-133)
  expects that call to succeed, so against such a server the model predicts
  the test fails; the versioned stores send `SET` instead
  (`Adapter.WriteCommand`). Nothing was executed to confirm this.
- **URI ignored by lib.** The `lib/index.js` constructor reads the option
  fields before it parses a connection string. A string argument therefore
  gets the default client, no `AUTH`/`SELECT` and the default prefix
  (`StoreLib.UriIgnored`).

## Model

| member | source | states |
|---|---|---|
| Namespace.BackingKey | src/index.js:68 | the backing key starts with the prefix and the rest of it is the key |
| Namespace.RemoveFirst | src/index.js:175 | removing the first occurrence of the prefix leaves the string unchanged when it does not occur and otherwise shortens it by the prefix's length |
| Namespace.StripBackingKey | src/index.js:175 | stripping the prefix from a backing key gives back the key |
| Namespace.RebuildFromStripped | src/index.js:175-177 | for a key that starts with the prefix, prefixing the stripped key rebuilds it |
| Namespace.BackingKeyInjective | src/index.js:68 | two keys with the same backing key in one namespace are the same key |
| Namespace.IndexFrom | src/index.js:175 | the index found is an occurrence with none before it, and no index is found only when there is no occurrence |
| Glob.StarMatchesAll | index.js:109-116 | the pattern `*` matches every key |
| Glob.PrefixStar | src/index.js:137 | for a metacharacter-free prefix, `prefix*` matches exactly the keys starting with the prefix |
| Glob.MatchSelectsNamespace | src/index.js:137 | the reference matcher keeps `prefix*` inside the namespace |
| Glob.LiteralMatch | lib/index.js:125-126 | a metacharacter-free pattern matches only the key spelled like it |
| Json.Text | src/index.js:71-74 | serialized text is never empty, so a stored value is never read back as a miss |
| Json.Digits | src/index.js:100 | a number's decimal digits are non-empty and all digits |
| Json.DigitsRoundTrip | src/index.js:74 | parsing a number's digits gives back the number |
| Json.Stringify | src/index.js:99-103 | serialization succeeds exactly for serializable values, and decoding its text gives back the value |
| Json.Decode | src/index.js:73-77 | whatever decodes can be serialized again; a number with a leading zero (`01`) and a string starting with a raw control character are malformed |
| Json.ParseEscapeChar | src/index.js:74 | the escaped form `JSON.stringify` writes for any character, control characters included, parses back to that character |
| Json.ParseText | src/index.js:74 | the parser reads exactly the serialization of a value and leaves what follows, when that does not start with a digit |
| Json.RoundTrip | src/index.js:100 | decoding the serialization of a serializable value gives back the value |
| Backend.Lookup | src/index.js:69 | `GET` fails exactly when the command fails, and otherwise finds a payload exactly for a stored key, namely the payload stored under it |
| Backend.Refusal | src/index.js:110-114 | with no injected failure, a write is refused exactly when it is a `SETEX` with a non-positive time |
| Backend.Applied | src/index.js:111-113 | `SET` stores the payload without expiry, `SETEX` with its time, `DEL` removes the key, other commands change nothing |
| Backend.Matching | src/index.js:137 | `KEYS pattern` selects the stored keys the server's matcher accepts |
| Backend.Enumerate | src/index.js:137 | the server lists each matching key exactly once |
| Backend.Client.Keys | src/index.js:137-139 | `KEYS` replies with each matching key once, or with the failure, and changes no data |
| Backend.Client.Del | src/index.js:126 | `DEL` removes the key and replies with the number removed, or fails and removes nothing |
| Countdown.Step | src/index.js:142-149 | a failed delete latches the counter to zero and reports its error; a successful one decrements the counter and fires `Done` exactly when it reaches zero from one |
| Countdown.Run | src/index.js:142-149 | no contract of its own: the reference definition of the callbacks a sequence of DEL completions fires through the per-delete closure; `RunBound`, `RunLatched` and `RunFromPending` state its properties |
| Countdown.RunBound | src/index.js:139-151 | a sequence of completions fires at most one callback per completion |
| Countdown.RunLatched | src/index.js:143-146 | once the counter is at or below zero only failures reach the callback |
| Countdown.RunFromPending | src/index.js:139-151 | from the number of pending deletes the callback fires `Done` exactly once when all succeed, and otherwise once per failure and never `Done` |
| Countdown.FailuresAreFailures | src/index.js:143-146 | the failure reports contain no `Done` and are empty only when every delete succeeded |
| Countdown.Bulk | src/index.js:139-151 | with the zero-match exit, the callback is `Done` once when every delete succeeded, and otherwise one report per failure with no `Done` |
| Countdown.NoExitCallbacks | index.js:118-129 | without the zero-match exit, zero matches fire nothing; otherwise it behaves as with the exit |
| Countdown.EachFailureReported | src/index.js:143-146 | two failed deletes fire two error callbacks, and a success after a failure fires nothing |
| Countdown.Outcomes | src/index.js:141-142 | each key's delete has its own outcome, in key order |
| Countdown.RemainingKeys | src/index.js:141-142 | a bulk delete removes exactly the listed keys whose delete succeeded and keeps every other entry unchanged |
| Countdown.DelCommandsOrder | src/index.js:141-142 | a bulk delete sends one `DEL` per key, in key order |
| Countdown.DeleteOne | src/index.js:142-149 | one key's `DEL` and its completion closure give the counter and the callback that the countdown step says |
| Countdown.DeleteEach | src/index.js:139-151 | the loop sends one `DEL` per key, removes the keys whose delete succeeded, and fires the countdown's callbacks |
| Adapter.Shift | src/index.js:94-97 | a callback in the `ttl` slot becomes the callback and leaves no `ttl`; otherwise the callback is kept and a number is passed on as the `ttl` |
| Adapter.Expiry | src/index.js:113 | a missing or zero `ttl` becomes 60 seconds and any other `ttl` is kept |
| Adapter.WriteCommand | src/index.js:110-114 | the write is `SET` exactly for `ttl === -1`, and otherwise `SETEX` with `ttl \|\| 60` |
| Adapter.TtlPolicy | src/index.js:91-115 | a callback in the `ttl` slot becomes the callee with a 60-second `SETEX`; `-1` never expires; other non-zero numbers are kept; the server refuses exactly the `ttl`s below -1 |
| Adapter.GetReply | src/index.js:69-78 | a read passes on the server's error and gives `null` for a missing or empty payload; a non-empty payload gives its decoded value, or a decode error exactly when it does not decode, never a miss |
| Adapter.ReadAfterWrite | src/index.js:67-115 | after an accepted write of a serializable value, a read of the key returns that value |
| Adapter.WriteIsolation | src/index.js:111-113 | a write leaves the reads of every other key unchanged |
| Adapter.StoredSamples | test/index.js:31-73 | `{a: 1}`, `0`, `false` and `null` read back as written |
| Adapter.NullLikeMiss | src/index.js:71-74 | a stored `null` reads exactly like a missing key |
| Adapter.ClientFor | src/index.js:33-42 | the argument itself wins when it has `setex`, then `client`, then a default client when neither port nor host is truthy, else a created client with the prefix nulled |
| Adapter.Handshake | src/index.js:44-54 | `AUTH` comes first exactly for a truthy password and `SELECT` last exactly for a truthy database, with nothing else: exactly one command per truthy password and one per truthy database |
| Adapter.PrefixOr | src/index.js:56 | the namespace is the truthy prefix, else `cacheman:`, and never empty |
| Adapter.ClearScope | src/index.js:136-153 | a prefix-wide clear under a namespace-preserving matcher removes exactly the namespaced keys whose delete succeeded and leaves every other key as it was |
| Adapter.SetupFor | src/index.js:33-56 | the client is the one `ClientFor` picks (the object itself, its `client` field, else one created from host and port) and the opening commands are exactly `Handshake` of the options; an object that is a client is used itself, a created client never sees the prefix, the opening commands are only `AUTH` and `SELECT`, and the namespace is the truthy prefix or the default |
| StoreSrc.Configure | src/index.js:26-57 | the namespace is never empty; a connection string is parsed first and the parsed options decide the client, the handshake and the prefix; an options object decides them as `SetupFor` says |
| StoreSrc.Store.constructor | src/index.js:26-57 | the store uses the chosen client, sends only the handshake to it, and fixes its prefix |
| StoreSrc.Store.Get | src/index.js:67-79 | `get` reads the namespaced key and hands back the decoded reply, changing no data |
| StoreSrc.Store.Set | src/index.js:91-115 | `set` sends nothing for an unserializable value; otherwise it sends the TTL policy's write of the serialized text and reports the text, or the server's refusal |
| StoreSrc.Store.Del | src/index.js:125-127 | `del` sends one literal `DEL` of the namespaced key |
| StoreSrc.Store.Clear | src/index.js:136-153 | `clear` lists `prefix*` and deletes each match, calling back as the countdown with the zero-match exit says |
| StoreSrc.Store.Scan | src/index.js:164-187 | `scan` sends `SCAN cursor MATCH prefix* COUNT count` (the count defaults to 10), then reads the page and returns the scan result |
| StoreSrc.Store.ReadPageKey | src/index.js:175-177 | one read of the scan sends `GET` of the page key with the prefix removed and put back, and returns what the scan's read specification says |
| StoreSrc.Store.Collect | src/index.js:174-185 | the reads run in page order and stop at the first failure; the result is the fetch of the page |
| StoreSrc.Reads | src/index.js:177-178 | a scan issues at most one read per key and at least one when the page is non-empty |
| StoreSrc.ReadsStop | src/index.js:177-178 | the reads stop just after the first failing one: every read before the last succeeds, and the last read is the page's last key or fails |
| StoreSrc.Reread | src/index.js:175-177 | no contract of its own: the `get` a scan issues for one page key, with the namespace removed; `RereadOwnKey`, `FetchEntries`, `FetchFirstError` and `ReadsStop` state its properties |
| StoreSrc.RereadOwnKey | src/index.js:175-177 | the read a scan issues for a page key in the namespace is a `get` of that very key |
| StoreSrc.Fetch | src/index.js:174-185 | a successful fetch has one entry per page key |
| StoreSrc.ScanResult | src/index.js:169-185 | a failed `SCAN` gives its error; otherwise the scan fails exactly when the fetch does, and a success carries the server's cursor and exactly the fetch's entries (one per page key), while a failed fetch gives the fetch's error, the first failing read's |
| StoreSrc.ReadLogOrder | src/index.js:175-177 | the scan reads the page keys with the prefix removed and put back, in page order |
| StoreSrc.FetchEntries | src/index.js:174-181 | a successful page has one entry per key: its key is the page key with the prefix removed (which rebuilds a namespaced key) and its data is what a read returns |
| StoreSrc.FetchFirstError | src/index.js:177-178 | a fetch fails exactly when some read fails, and then with the error of the first failing read |
| StoreSrc.WriteThenRead | src/index.js:67-115 | a write then a read of the same key with no failures returns the value written, and the write fails only for a `ttl` below -1 |
| StoreLib.Configure | lib/index.js:28-56 | the namespace is never empty, a connection string gives the default client, and an options object decides as in the current store |
| StoreLib.UriIgnored | lib/index.js:28-32 | a connection string gives the default client, no handshake and the default prefix, so a password, database or prefix in it, which the current store honours, is lost |
| StoreLib.AgreesWithSrc | lib/index.js:26-57 | for an options object the transpiled and current constructors decide alike |
| StoreLib.Store.constructor | lib/index.js:26-57 | the store uses the chosen client, sends only the handshake to it, and fixes its prefix |
| StoreLib.Store.Get | lib/index.js:67-79 | `get` reads the namespaced key and hands back the decoded reply, changing no data |
| StoreLib.Store.Set | lib/index.js:91-115 | `set` behaves as in the current store |
| StoreLib.Store.DelPattern | lib/index.js:125-142 | `_del` lists the pattern and deletes each match, with the zero-match exit |
| StoreLib.Store.Del | lib/index.js:152-154 | `del` is `_del` of the namespaced key, so the key may be a pattern |
| StoreLib.Store.Clear | lib/index.js:164-166 | `clear` is `_del` of `prefix*` |
| StoreLib.LiteralDelSelectsKey | lib/index.js:152-154 | under the reference matcher, a metacharacter-free namespaced key selects only itself |
| StoreOld.Configure | index.js:22-31 | the given client wins, else a client is created from the port, host and options as given; the only opening command is one `AUTH` with the password, sent exactly for a truthy password |
| StoreOld.Write | index.js:75 | the original write is always a `SETEX` of the key and payload for `ttl || 60` seconds, and the server refuses it exactly for a negative `ttl` |
| StoreOld.NeverExpireRefused | index.js:75 | `ttl = -1` is accepted by the current store and refused by the server when the original store sends it |
| StoreOld.ClearPattern | index.js:109-116 | `clear` asks for `key*`, `*` when the key slot holds the callback, and `undefined*` when no key is given |
| StoreOld.Store.constructor | index.js:22-31 | the store uses the chosen client and sends it only the handshake |
| StoreOld.Store.Get | index.js:41-53 | `get` reads the raw key and hands back the decoded reply |
| StoreOld.Store.Set | index.js:65-82 | `set` sends `SETEX key (ttl \|\| 60)` of the serialized value and reports the value as given, or fails with nothing sent when it cannot be serialized |
| StoreOld.Store.Del | index.js:92-95 | `del` sends one `DEL` of the raw key |
| StoreOld.Store.Clear | index.js:105-131 | `clear` lists `key*` and deletes each match through the countdown without a zero-match exit |
| StoreOld.EmptyClearSilent | index.js:118-119 | with nothing matched the original `clear` calls back nothing, while the current one calls back `Done` |

## Left out

- Network, connection and wire protocol of the Redis client. The client is a map plus a command log. `redis.createClient` is recorded as a choice (`Adapter.ClientChoice`), and the client it returns is a constructor parameter.
- `parse-redis-url`. The parser is a function parameter of `StoreSrc.Configure`.
- The `throw` inside the `auth` and `select` callbacks. Those errors arrive asynchronously, outside any store call, so only the commands themselves are modelled.
- Wall-clock expiry. Entries record the expiry they were written with but never expire.
- Callback scheduling. `clear` sends every `DEL` before any reply arrives. The model takes the replies in key order, and the countdown lemmas hold for every sequence of outcomes.
- The `each` library's scheduling in `scan`. It is taken as sequential, which is its default.
- `Number(newCursor)` in `scan`. The cursor is taken as already numeric.
- Json.Decode: accepts a subset of what `JSON.parse` accepts. Payloads with whitespace, fractions or exponents, and `\u` escapes naming surrogate halves, are reported as malformed, though `JSON.parse` accepts them. Strings are sequences of Unicode scalar values, so a lone surrogate has no model.
- Json.Text: writes every integer in plain digits and `Value` integers are unbounded. JavaScript numbers are doubles, so integers beyond 2^53 are not exact there, and `JSON.stringify` writes numbers of 1e21 and above with an exponent.
- Other JSON details the round trip does not need:
  - duplicate object keys;
  - `undefined`, functions and `toJSON`;
  - circular structures. The one unserializable value modelled is a BigInt.
- `data.toString()` on Buffer replies. Replies are strings.
- Bracket classes `[...]` in the reference matcher. It treats `[` literally. The stores themselves are parametric in the server's matcher.
- Truthiness of string-typed ports and databases, such as `"0"`. Ports and databases are integers.
- `bucket` in index.js. It is stored but never read.
- Callbacks as functions. Results are returned instead. Which function receives them is tracked only where the `ttl` or `key` slot can hold the callback.
- A failed command that the server nevertheless applied. A failed command leaves the data unchanged.
- A synchronous throw from `client.setex` in the original `set`. Only a serialization failure is modelled on that path.
- Reads: its own contract gives only the bounds on the number of reads. That the reads stop just after the first failing one is the separate lemma `StoreSrc.ReadsStop`, so that the scan loop's proof does not carry it.
