# MemCacheEntry request framer, modelled in Dafny

`MemCacheEntry` is the per-request entry of a memcache-compatible server that
speaks the memcached text protocol. The connection handler feeds it raw
chunks through `push`. Before a request action is recorded, a chunk is a
header line: it is split at the first `\r\n`, trimmed and exploded on single
spaces, and its first token selects `set`, `get`, `delete` or `quit`. Once an
action is recorded, every chunk is payload for `pushData`, which checks it
against the byte count the `set` header declared. Errors are PHP exceptions
carrying a message string; the caller turns them into protocol replies.

The project has four modules:

- `Protocol` (`protocol.dfy`): the delimiter, PHP's `trim`/`rtrim`/`explode`,
  the search for the first delimiter, the numeric-field test, and
  `ParseRequest`, the pure header parse. `Implode`, `FormatRequest` and
  `Decimal` are the client-side partners: they write what the parser reads,
  and round-trip lemmas connect the two.
- `Framer` (`framer.dfy`): the entry's seven fields as a value (`Entry`) and
  one function per handler (`Push`, `Dispatch`, `SetAction`, `GetAction`,
  `DeleteAction`, `QuitAction`, `PushData`). A thrown exception is an
  `Outcome` of `Failure(message)` with the source's exact message.
- `MemCache` (`mem_cache_entry.dfy`): the class `MemCacheEntry` with the
  fields `requestAction`, `key`, `flags`, `expTime`, `bytes`, `data` and
  `complete`. Its methods update those fields in place, as the PHP code
  does. Each method is proved to leave exactly the state, and return exactly
  the outcome, that the matching `Framer` function gives.
- `FramerProperties` (`framer_properties.dfy`): what the framer promises.
  The properties are stated over requests written the way a client writes
  them, and proved from the `Framer` functions.

Behaviour of the code worth knowing, which the model keeps:

- `push` has no `add` case, so `add` fails as an unknown action and
  `addAction` is never reached.
- There is no missing-argument error: a missing token is PHP's `null`,
  which the model reads as `""`. So `get` with no key completes with an
  empty key, and a `set` with a missing flag fails on the flag.
- `pushData` applies `rtrim` to a payload chunk, which also cuts whitespace
  that belongs to the payload (`TrailingWhitespaceShortensPayload`).
- `pushData` stores a payload chunk through `setData`, whose body is not
  part of this model; the model takes it to overwrite the stored data.
- Besides `""` and `"\r\n"`, the chunks `"\n"` and `"0"` are also empty
  requests. PHP's loose `== false` treats `"0"` as false. The same
  looseness means an inline remainder of `"0"` is not passed on to
  `pushData`.
- A header chunk with no `\r\n` at all gets an empty first token, so it
  fails as an unknown action with an empty name.

## Model

| member | source | states |
|---|---|---|
| `Protocol.RTrim` | src/TechDivision/LemCacheContainer/Api/MemCacheEntry.php:283-286 | the result is a prefix of the input, everything cut off is whitespace, and the result does not end in whitespace |
| `Protocol.LTrim` | src/TechDivision/LemCacheContainer/Api/MemCacheEntry.php:119 | the result is a suffix of the input, everything cut off is whitespace, and the result does not start with whitespace |
| `Protocol.Trim` | src/TechDivision/LemCacheContainer/Api/MemCacheEntry.php:119 | no whitespace is left at either end, and a string with none there is returned unchanged |
| `Protocol.TrimCut` | src/TechDivision/LemCacheContainer/Api/MemCacheEntry.php:119 | the trimmed string is a contiguous slice of the input, and everything before and after that slice is whitespace |
| `Protocol.Explode` | src/TechDivision/LemCacheContainer/Api/MemCacheEntry.php:119 | at least one piece, no piece contains a space, and joining the pieces with single spaces gives back the input |
| `Protocol.ExplodeImplode` | src/TechDivision/LemCacheContainer/Api/MemCacheEntry.php:119 | splitting space-joined space-free pieces gives back exactly those pieces |
| `Protocol.FindNewLine` | src/TechDivision/LemCacheContainer/Api/MemCacheEntry.php:109-116 | the result is the first position of `\r\n`, or none when the chunk holds no delimiter |
| `Protocol.FindNewLineAfter` | src/TechDivision/LemCacheContainer/Api/MemCacheEntry.php:109-116 | a delimiter written after a line that holds no `\r` is the first delimiter |
| `Protocol.Decimal` | src/TechDivision/LemCacheContainer/Api/MemCacheEntry.php:225-243 | the decimal spelling of a number passes the numeric test and holds no whitespace |
| `Protocol.DecimalRoundTrip` | src/TechDivision/LemCacheContainer/Api/MemCacheEntry.php:225-243 | reading back the decimal spelling of a number gives that number |
| `Protocol.ParseRequest` | src/TechDivision/LemCacheContainer/Api/MemCacheEntry.php:100-125 | none exactly for `""`, `"0"`, `"\n"` and `"\r\n"`; otherwise the data is everything after the first delimiter, the tokens contain no space and join with single spaces into the trimmed header before that delimiter (so they are its split on single spaces), and a chunk without a delimiter gives `[""]` and no data |
| `Protocol.ParseFormatRoundTrip` | src/TechDivision/LemCacheContainer/Api/MemCacheEntry.php:100-125 | parsing a header written from non-empty whitespace-free tokens, the delimiter and any data gives back exactly those tokens and that data |
| `Framer.StoredChunk` | src/TechDivision/LemCacheContainer/Api/MemCacheEntry.php:283-286 | a bare delimiter is stored as it is; any other chunk is stored as a prefix of itself, everything cut off is whitespace, and what is stored does not end in whitespace |
| `Framer.PushData` | src/TechDivision/LemCacheContainer/Api/MemCacheEntry.php:272-302 | a bare delimiter when the data already has the declared length leaves the data and completes; otherwise the stored chunk replaces the data; the entry is complete exactly when it was or the data has the declared length; the push fails, with "CLIENT_ERROR bad data chunk", exactly when the data is longer than declared; no other field changes |
| `MemCache.MemCacheEntry.constructor` | src/TechDivision/LemCacheContainer/Api/MemCacheEntry.php:38 | a new entry has no action, empty key and data, zero numeric fields and is not complete |
| `MemCache.MemCacheEntry.SetData` | src/TechDivision/LemCacheContainer/Api/MemCacheEntry.php:289 | the data is replaced and nothing else changes |
| `MemCache.MemCacheEntry.Push` | src/TechDivision/LemCacheContainer/Api/MemCacheEntry.php:48-91 | the new fields and the outcome are those of `Framer.Push` on the old fields |
| `MemCache.MemCacheEntry.GetAction` | src/TechDivision/LemCacheContainer/Api/MemCacheEntry.php:142-147 | the key is token 1, the action is `get`, the entry is complete, and flags, expiration time, bytes and data are unchanged |
| `MemCache.MemCacheEntry.DeleteAction` | src/TechDivision/LemCacheContainer/Api/MemCacheEntry.php:164-169 | the key is token 1, the action is `delete`, the entry is complete, and flags, expiration time, bytes and data are unchanged |
| `MemCache.MemCacheEntry.QuitAction` | src/TechDivision/LemCacheContainer/Api/MemCacheEntry.php:257-261 | the action is `quit`, the entry is complete, and every other field is unchanged |
| `MemCache.MemCacheEntry.AddAction` | src/TechDivision/LemCacheContainer/Api/MemCacheEntry.php:191-194 | does exactly what `set` does |
| `MemCache.MemCacheEntry.SetAction` | src/TechDivision/LemCacheContainer/Api/MemCacheEntry.php:218-248 | the new fields and the outcome are those of `Framer.SetAction` on the old fields |
| `MemCache.MemCacheEntry.PushData` | src/TechDivision/LemCacheContainer/Api/MemCacheEntry.php:272-302 | the new fields and the outcome are those of `Framer.PushData` on the old fields |
| `FramerProperties.PushFormatted` | src/TechDivision/LemCacheContainer/Api/MemCacheEntry.php:52-65 | a header written from well-formed tokens is dispatched on exactly those tokens and the data after it |
| `FramerProperties.EmptyRequestRejected` | src/TechDivision/LemCacheContainer/Api/MemCacheEntry.php:57-61 | with no action recorded, `""`, `"\n"` or `"\r\n"` fails with "Empty request data found" and no field changes |
| `FramerProperties.ZeroRequestRejected` | src/TechDivision/LemCacheContainer/Api/MemCacheEntry.php:104 | with no action recorded, `"0"` fails the same way |
| `FramerProperties.UndelimitedHeaderRejected` | src/TechDivision/LemCacheContainer/Api/MemCacheEntry.php:109-119 | a non-empty header chunk holding no `\r\n` fails as an unknown action with an empty name, and no field changes |
| `FramerProperties.UnknownActionRejected` | src/TechDivision/LemCacheContainer/Api/MemCacheEntry.php:83-85 | a header whose first token is not `set`, `get`, `delete` or `quit` fails with "Found unknown request action" and that token, and no field changes |
| `FramerProperties.AddRejected` | src/TechDivision/LemCacheContainer/Api/MemCacheEntry.php:65-85 | an `add` request fails as an unknown action: push never reaches addAction |
| `FramerProperties.GetCompletes` | src/TechDivision/LemCacheContainer/Api/MemCacheEntry.php:71-73 | after one push of a `get` header the key is token 1, the action is `get`, the entry is complete and all other fields are unchanged |
| `FramerProperties.DeleteCompletes` | src/TechDivision/LemCacheContainer/Api/MemCacheEntry.php:75-77 | the same for `delete` |
| `FramerProperties.QuitCompletes` | src/TechDivision/LemCacheContainer/Api/MemCacheEntry.php:79-81 | after one push of a `quit` header the action is `quit`, the entry is complete, and the key and all other fields are unchanged |
| `FramerProperties.SetValidationOrder` | src/TechDivision/LemCacheContainer/Api/MemCacheEntry.php:221-243 | a non-numeric flag fails with "CLIENT_ERROR bad command line format", else a non-numeric exptime with "CLIENT_ERROR found invalid expiration time", else non-numeric bytes with "CLIENT_ERROR bad data chunk"; the action, the key and every earlier valid field are already recorded, and every later push goes to pushData |
| `FramerProperties.SetAccepted` | src/TechDivision/LemCacheContainer/Api/MemCacheEntry.php:218-248 | a `set` header with three numeric fields records all of them and passes a truthy remainder, and only a truthy one, to pushData |
| `FramerProperties.PushSetHeader` | src/TechDivision/LemCacheContainer/Api/MemCacheEntry.php:218-248 | a `set` header written with a key and three numbers records the action, key and exactly those numbers, then handles the remainder as pushData does |
| `FramerProperties.PayloadLineCompletes` | src/TechDivision/LemCacheContainer/Api/MemCacheEntry.php:272-302 | a payload of the declared length followed by the delimiter, pushed into empty data, is stored exactly and completes the entry |
| `FramerProperties.SetInlineCompletes` | src/TechDivision/LemCacheContainer/Api/MemCacheEntry.php:218-248 | one push of `set <key> <flags> <exptime> <n>\r\n<payload>\r\n` with an n-byte payload not ending in whitespace completes the entry with exactly those fields and that payload (for example `set foo 0 0 3\r\nbar\r\n`) |
| `FramerProperties.SetThenPayloadCompletes` | src/TechDivision/LemCacheContainer/Api/MemCacheEntry.php:245-300 | a `set` header pushed alone leaves the entry incomplete with empty data; the payload line pushed next completes it with exactly that payload |
| `FramerProperties.SetThenOversizedPayloadFails` | src/TechDivision/LemCacheContainer/Api/MemCacheEntry.php:292-300 | after a `set` header, a payload chunk that is longer than declared once trimmed fails with "CLIENT_ERROR bad data chunk", with the trimmed chunk stored |
| `FramerProperties.TrailingWhitespaceShortensPayload` | src/TechDivision/LemCacheContainer/Api/MemCacheEntry.php:283-296 | an inline payload that ends in whitespace is stored as a proper prefix of itself, shorter than declared, and the entry stays incomplete without an error |
| `FramerProperties.CompletionMatchesDeclaredLength` | src/TechDivision/LemCacheContainer/Api/MemCacheEntry.php:245-300 | a push into an incomplete entry never completes a `set` whose data differs in length from the declared bytes, and a push without error never leaves more data than declared |
| `FramerProperties.FailureKinds` | src/TechDivision/LemCacheContainer/Api/MemCacheEntry.php:48-302 | a failed push never changes whether the entry is complete, and its message is one of the four fixed messages or names the unknown action |

## Left out

- `AbstractMemCacheEntry` is not part of this model. Only its seven fields and trivial accessors are modelled. The fields are taken to start empty, zero and false; the PHP `null` they may really start as behaves the same way in every comparison this file makes.
- `MemCache.MemCacheEntry.SetData` is taken to overwrite the stored data, because its body is not part of this model. So nothing is proved about payload spread over several data chunks: no accumulation, no equivalence of different chunkings, and no overflow law over a cumulative length.
- `Protocol.IsNumeric` is narrower than PHP's `is_numeric`: it accepts a non-empty run of ASCII digits only, and rejects signs, decimals, exponents and leading whitespace, which PHP accepts. The numeric fields are stored as their `nat` values rather than as the validated strings.
- PHP's notice on an undefined array index (`$request[1]` and so on) is not modelled; the missing token reads as `""`.
- `MemCache.MemCacheEntry.PushData`: the PHP method also returns `true` when it completes the entry. The model returns only the outcome; the `complete` field carries the same fact.
- Chunks are strings whose characters stand for bytes. There is no character encoding, so `strlen` is the sequence length.
- Sockets, connection handling, the storage engine that acts on a completed entry, reply formatting and threading are outside this file and outside the model.
