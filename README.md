# trust-lord client services, modelled in Dafny

This project models the three service modules of the trust-lord tenant/landlord
mobile client that carry behaviour:

- **`bitnobService`** (`services/bitnob.ts`): initiating a crypto payment and
  asking for its status. Both go through a backend call whose answer is computed
  locally. `/initiate` answers a pending payment. It echoes the request, converts
  the fiat amount at a fixed rate and rounds it to 8 decimals, and the payment
  expires after 30 minutes. `/status/<id>` answers "completed" for that id. Any
  other endpoint throws, and the service turns a thrown error into a failed
  response with code `BITNOB_API_ERROR`.
- **`localApi`** (`services/localApi.ts`): JSON values kept under string keys in
  the device's persistent store (AsyncStorage). Reads swallow errors and answer
  null. Writes and removals rethrow. Fixed-key wrappers exist for the signed-in
  user and the tenant's lease.
- **`ipfsService.uploadDocument`** (`services/ipfs.ts`): a stand-in pinning
  response. Its content "hash" is `Qm` plus the first 44 lower-case hex
  characters of the UTF-8 bytes of the file name with the clock reading appended.
  It also carries a gateway URL and the buffer's size.

Modules, one per file:

| file | module | what |
|---|---|---|
| wrappers.dfy | Wrappers | Option, Result, Outcome |
| numerals.dfy | Numerals | decimal text of integers (as `${n}` renders them up to 2^53) and its inverse; hex digits |
| js.dfy | Js | thrown errors and the `message`-or-fallback idiom; `startsWith`, `indexOf`, `replace`, `substring` |
| json.dfy | Json | JSON values, `JSON.stringify`, `JSON.parse`, and the proof that parse undoes stringify |
| local_api.dfy | LocalApi | the store as a class over `map<string, string>`, the store laws |
| bitnob.dfy | Bitnob | the two backend calls and the two service functions |
| ipfs.dfy | Ipfs | UTF-8 and hex encoding with their decoders, the upload response |

`bitnob.ts` and `ipfs.ts` only build values, so they are modelled as functions.
`localApi.ts` changes a shared store in place, so it is a class, `LocalStorage`,
with a `map<string, string>` field. Its methods have `modifies this` and say
what the whole new map is. The store laws are lemmas about the pure functions
`Written`, `Removed` and `Read`, which those methods are specified against.

The clock (`Date.now()`) is a parameter `now`, in milliseconds, read once per
call. The source reads it separately for each field.

Whether the storage backend fails on a call is also a parameter, `fault`: None
means the call succeeds, Some(error) is the error it throws. A failed write or
removal is taken to leave the store as it was.

## Model

| member | source | states |
|---|---|---|
| Bitnob.ExchangeRate | services/bitnob.ts:26 | the rate is positive, so the conversion is defined for every currency |
| Bitnob.RoundTo8 | services/bitnob.ts:35 | `parseFloat(x.toFixed(8))` has at most 8 decimals and lies within 5·10^-9 of x |
| Bitnob.RoundTo8OnGrid | services/bitnob.ts:35 | a number that already has at most 8 decimals is unchanged, so rounding is idempotent |
| Bitnob.RoundTo8Tie | services/bitnob.ts:35 | a value exactly halfway between two 8-decimal numbers rounds away from zero, for both signs |
| Bitnob.InitiateResponse | services/bitnob.ts:24-46 | the `/initiate` answer: success with no error; reference, amount, fiat currency and crypto currency echoed; rate 120000000 for BTC and 3800 otherwise; crypto amount is `RoundTo8` of amount/rate, so it has 8 decimals and lies within 5·10^-9 of it; pending; landlord wallet; QR URI with the unrounded amount; id `pay_<now>`; hosted URL ending in `<now>`; created at now; expires 1800000 ms later |
| Bitnob.InitiateRoundsTieUp | services/bitnob.ts:35 | 234375 units at the BTC rate, an exact tie at 0.001953125 (1/512, exact as a double too), are answered as 0.00195313 |
| Bitnob.PaymentIdHoldsClock | services/bitnob.ts:32 | the payment id is `pay_` followed by a numeral that reads back as the clock value |
| Bitnob.PostToBackend | services/bitnob.ts:16-49 | succeeds exactly for `/initiate`, and then with the answer above; any other endpoint throws `Unknown endpoint` |
| Bitnob.GetFromBackend | services/bitnob.ts:51-63 | succeeds exactly for paths starting with `/status/`, reporting `completed` for the id after that prefix; any other path throws `Unknown endpoint` |
| Bitnob.InitiateFailure | services/bitnob.ts:80-89 | a caught error becomes `success:false` with no data and code `BITNOB_API_ERROR`; its message is kept, or the default message when it is empty |
| Bitnob.StatusFailure | services/bitnob.ts:105-114 | a caught status error becomes `success:false` with no data, code `BITNOB_API_ERROR` and a message naming the payment |
| Bitnob.InitiatePayment | services/bitnob.ts:74-90 | never throws, and always answers the pending payment described for `/initiate` |
| Bitnob.GetPaymentStatus | services/bitnob.ts:99-115 | for every id p: success, no error, data `{paymentId: p, status: completed}` (the id survives the round trip through `/status/` + p and `replace`) |
| Js.IndexOf | services/bitnob.ts:57 | the position found is an occurrence with no earlier occurrence; "not found" means no occurrence at all |
| Js.ReplaceLeadingPrefix | services/bitnob.ts:57 | replacing a string's own leading prefix by nothing gives the rest back |
| Js.MessageOr | services/bitnob.ts:86 | the `message`-or-fallback idiom gives the message when that is non-empty, else the fallback |
| Js.Substring | services/ipfs.ts:25 | `substring` takes the slice between the clamped bounds, in either argument order |
| Js.StartsWith | services/bitnob.ts:53 | `startsWith`: the prefix is no longer than the text and equals its first characters (a definition; it is the condition in `Bitnob.GetFromBackend`'s contract) |
| Js.Replace | services/bitnob.ts:57 | `replace` with a string pattern: only the first occurrence, found by `IndexOf`, is replaced; no occurrence leaves the text as it is (a definition; `Js.ReplaceLeadingPrefix` states what `getFromBackend` relies on) |
| Numerals.IntToString | services/bitnob.ts:32 | `${Date.now()}`: a minus sign exactly for a negative integer, then the digits of its magnitude; `Numerals.ParseIntOfIntToString` proves the text reads back as the integer |
| Numerals.NatToString | services/bitnob.ts:32 | the decimal text of a number is non-empty digits with no leading zero (except for 0 itself) |
| Numerals.ParseIntOfIntToString | services/bitnob.ts:32 | the decimal text of an integer reads back as that integer |
| Json.Stringify | services/localApi.ts:11 | `JSON.stringify` without indentation: keywords, integer text, quoted strings with JSON escapes, arrays and objects comma-separated in order (a definition; its meaning is given by `Json.ParseStringify`) |
| Json.Parse | services/localApi.ts:21 | `JSON.parse`: one value with only whitespace around it, None where the source throws a SyntaxError (a definition; `Json.ParseStringify` proves it undoes `Json.Stringify`) |
| Json.ParseStringify | services/localApi.ts:9-21 | `JSON.parse(JSON.stringify(v))` is `v` for every JSON value |
| Json.StringifyNonEmpty | services/localApi.ts:21 | no value stringifies to the empty (falsy) string |
| LocalApi.Written | services/localApi.ts:11 | the store after `AsyncStorage.setItem(key, JSON.stringify(value))`: the key maps to the value's JSON text, other keys as before (a definition; the store laws below are about it) |
| LocalApi.Removed | services/localApi.ts:30 | the store after `AsyncStorage.removeItem(key)`: the key has no entry, other keys as before (a definition) |
| LocalApi.Read | services/localApi.ts:20-21 | what `getItem` answers after a successful read: null for a missing or empty text or a text that does not parse, the parsed value otherwise (a definition) |
| LocalApi.ReadWritten | services/localApi.ts:9-21 | get after set: reading a key answers the value last written there |
| LocalApi.ReadRemoved | services/localApi.ts:28-31 | get after remove: a removed key reads as null |
| LocalApi.OtherKeysUnchanged | services/localApi.ts:9-35 | writing or removing one key leaves what every other key reads unchanged |
| LocalApi.WriteOverwrites | services/localApi.ts:11 | a second write to a key replaces the first rather than merging |
| LocalApi.UserAndLeaseIsolated | services/localApi.ts:4-60 | the lease wrappers leave the stored user as it reads, and the user wrappers leave the stored lease as it reads |
| LocalApi.CanonicalPreserved | services/localApi.ts:9-35 | writes and removals keep every stored text the JSON text of the value it parses to |
| LocalApi.CanonicalReadNull | services/localApi.ts:18-26 | in such a store a key reads as null exactly when it is missing or holds JSON null |
| LocalApi.LocalStorage.SetItem | services/localApi.ts:9-16 | on success the key maps to the value's JSON text and nothing else changes; a backend error is rethrown and nothing changes |
| LocalApi.LocalStorage.GetItem | services/localApi.ts:18-26 | never throws: null on a backend error, a missing or empty text, or text that does not parse; the parsed value otherwise |
| LocalApi.LocalStorage.RemoveItem | services/localApi.ts:28-36 | on success the key is gone and nothing else changes; a backend error is rethrown and nothing changes |
| LocalApi.LocalStorage.SaveUser | services/localApi.ts:38-40 | `setItem` under `trustlord_user` |
| LocalApi.LocalStorage.GetUser | services/localApi.ts:42-44 | `getItem` of `trustlord_user` |
| LocalApi.LocalStorage.ClearUser | services/localApi.ts:46-48 | `removeItem` of `trustlord_user` |
| LocalApi.LocalStorage.SaveTenantLease | services/localApi.ts:50-52 | `setItem` under `trustlord_tenant_lease` |
| LocalApi.LocalStorage.GetTenantLease | services/localApi.ts:54-56 | `getItem` of `trustlord_tenant_lease` |
| LocalApi.LocalStorage.ClearTenantLease | services/localApi.ts:58-60 | `removeItem` of `trustlord_tenant_lease` |
| LocalApi.SaveAndReloadLease | services/localApi.ts:50-56 | a caller that saves a lease and reads it back gets the same lease, and the stored user reads the same before and after |
| Ipfs.Utf8Encode | services/ipfs.ts:25 | a string of n characters has between n and 4n UTF-8 bytes |
| Ipfs.Utf8RoundTrip | services/ipfs.ts:25 | strict UTF-8 decoding gives back the encoded string |
| Ipfs.HexEncode | services/ipfs.ts:25 | the hex text has two characters per byte, all in `[0-9a-f]` |
| Ipfs.HexRoundTrip | services/ipfs.ts:25 | hex decoding gives back the encoded bytes |
| Ipfs.HexEncodePrefix | services/ipfs.ts:25 | the first 2k hex characters encode the first k bytes |
| Ipfs.HashSource | services/ipfs.ts:25 | `Buffer.from(filename + Date.now())`: the UTF-8 bytes of the file name followed by the decimal clock text (a definition) |
| Ipfs.ContentHash | services/ipfs.ts:25 | the `hash` expression: `Qm` followed by the first 44 characters of the hex text of the UTF-8 bytes of file name + clock text (a definition; `Ipfs.ContentHashShape` states its shape and meaning) |
| Ipfs.ContentHashShape | services/ipfs.ts:25 | the hash is `Qm` followed by min(44, 2·bytes) lower-case hex characters (so at most 46 in all), and they decode to the first min(22, bytes) UTF-8 bytes of file name + clock text |
| Ipfs.ContentHashFullLength | services/ipfs.ts:25 | a file name and clock text of 22 characters or more give a hash of exactly 46 characters |
| Ipfs.UploadDocument | services/ipfs.ts:17-41 | always succeeds with no error; hash as above; size is the buffer's length; name is the file name; the gateway is the Pinata gateway followed by the hash; pinned |
| Ipfs.UploadFailure | services/ipfs.ts:42-50 | a caught error becomes `success:false` with no data and code `IPFS_UPLOAD_FAILED`; its message is kept, or the default message when it is empty |

## Left out

- Asynchrony: every `async` operation is modelled as one synchronous step. The
  service makes one call at a time.
- Logging (`console.log`, `console.error`) is diagnostic only and is not modelled.
- AsyncStorage is a library outside this model. It is abstracted as a map from
  keys to texts. Whether it fails is a per-call parameter. A failed write or
  removal is assumed to leave the map unchanged.
- Timestamps are kept as milliseconds. `expiresAt` and `createdAt` are produced
  with `toISOString()` in the source; that ISO-8601 text is not modelled.
- `qrCode`: the source writes the unrounded float with JavaScript's
  number-to-text conversion. The model keeps the URI as a value: the wallet and
  the exact unrounded quotient.
- Amounts are exact rationals, not IEEE-754 doubles. `toFixed(8)` switches to
  exponent notation at 10^21 and above, and that branch is not modelled; every
  double that large is already a whole number, so rounding would not change it.
  NaN and infinite amounts are outside the model. The quotient amount/rate is
  exact here, while the source divides doubles: a quotient that is a tie only
  in exact arithmetic (3 / 120000000 is 2.5·10^-8 exactly, but the double is
  slightly below it) rounds up here and can round down in the source.
- Integer-to-text is exact decimal text of an unbounded integer. It agrees
  with JavaScript's Number-to-String only up to 2^53 in magnitude. Beyond that
  a JavaScript number is a rounded double written with at most 17 significant
  digits, and from 10^21 in exponent form; neither is modelled. The clock
  readings written this way stay far below 2^53.
- JSON numbers are exact integers. The parser rejects fractions and exponents,
  so `getItem` answers null for a stored text such as `1.5`, where the source
  would return the number. JavaScript's rounding of integers beyond 2^53 to the
  nearest double, in `JSON.parse`, and its 17-digit rendering of them, in
  `JSON.stringify`, are not modelled: `Json.Parse` and `Json.Stringify` keep such
  integers exact.
- JSON objects are member lists in insertion order. JavaScript lists
  integer-like keys first and keeps only the last of duplicate keys; neither is
  modelled. `undefined` and functions have no JSON form, and a `Date` is written as its
  ISO text and comes back as a string, not a `Date`; none of these is
  modelled. So is the shape of the `User` record:
  `saveUser` takes a JSON value.
- Strings are sequences of Unicode scalar values, not UTF-16 code units. So lone
  surrogates cannot occur. `\u` escapes that name a surrogate half, including
  valid pairs, are rejected by the parser. For the ASCII patterns used here,
  `indexOf`, `replace` and `substring` do not depend on this difference.
- `webhookUrl`, `redirectUrl`, `customerEmail`, `customerPhone` and `description`
  are carried in the request but not used, as in the source.
- `duplicateHash` (optional in `IPFSUploadData`) is never set by the source, and
  the model has no such field.
- Nothing in `uploadDocument`'s `try` block can throw over the values modelled
  here, so `Ipfs.UploadDocument` always succeeds. The handler is modelled alone
  as `Ipfs.UploadFailure`.
- The same holds for `initiatePayment` and `getPaymentStatus`. They only call
  endpoints that answer, so their `catch` branches are reached by no input. They
  are modelled as `Bitnob.InitiateFailure` and `Bitnob.StatusFailure`.
- The backend calls have no failure path for the endpoints the services use,
  and the model adds none.
  Initiation always succeeds: `/initiate` always answers a pending payment
  (services/bitnob.ts:24-46). A status lookup always reports `completed`
  (services/bitnob.ts:53-60). `getItem` swallows every read error and answers
  null (services/localApi.ts:22-25).
