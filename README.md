# Lotto MCP server: credential codec, service and tool dispatcher

A Dafny model of the credential-custody and tool-dispatch layer of an MCP server that buys lottery
tickets and checks winning numbers through a browser-automation library.

- **Credential codec** (`src/crypto-utils.ts`, modules `CryptoUtils`, `Base64`, `Utf8`, `Text`, `Bytes`):
  - Simple mode stores `id,password` as the Base64 (section 4 of RFC 4648) of its UTF-8 bytes (RFC 3629).
    Decoding splits the text on commas, with JavaScript `split(',')` semantics.
  - Advanced mode XORs the UTF-8 bytes of a field with the repeating UTF-8 bytes of a key,
    `'default-key'` when none is given, and Base64-encodes the result. `Encrypt` and `Decrypt` share the
    source's buffer-filling loop (`XorBuffer`, over an array), and are proved against the functions
    `Encrypted` and `Decrypted`.
- **Service** (`src/lotto-service.ts`, module `LottoService`):
  - `getCredentials` tries simple mode first, then advanced mode, then fails.
  - Class `LottoMCPService` holds the sign-in flag. `purchaseLotto`, `checkLottoWinning` and `destroy`
    are methods.
  - Each method is proved against a pure step function: `PurchaseStep` or `CheckStep`. A step function
    gives the result, the new flag and the exact requests made of the browser collaborator.
  - The collaborator is class `LottoClient`. It records every request. It answers with whatever its
    `replies` field holds, so every contract holds for every behaviour of the site.
- **Dispatcher** (`src/index.ts`, module `McpServer`):
  - The ListTools table, with its JSON Schemas held as data and checked by a reference validator
    (`Conforms`).
  - The zod argument parsers, which collect issues the way zod does.
  - The CallTool switch, and the `catch` block that builds the `isError` envelope.

## Model

| member | source | states |
|---|---|---|
| Bytes.XorCancels | src/crypto-utils.ts:50 | XORing a byte twice with the same key byte gives the byte back |
| Bytes.XorOtherKeyDiffers | src/crypto-utils.ts:69 | undoing with a different key byte never gives the original byte |
| Base64.Encode | src/crypto-utils.ts:18 | the encoding of n bytes has 4·⌈n/3⌉ characters |
| Base64.DecodeEncode | src/crypto-utils.ts:18-26 | decoding the encoding of any byte string gives the bytes back |
| Base64.EncodeDecode | src/crypto-utils.ts:26 | every string the strict decoder accepts is exactly the encoding of what it decodes to |
| Base64.DecodeNonEmpty | src/crypto-utils.ts:65 | under this model's strict decoder, a non-empty accepted string decodes to at least one byte |
| Utf8.EncodeChar | src/crypto-utils.ts:18 | each character takes one to four bytes |
| Utf8.DecodeFirst | src/crypto-utils.ts:26 | a decoded character consumes one to four bytes |
| Utf8.DecodeEncode | src/crypto-utils.ts:18-26 | decoding the UTF-8 encoding of any string gives the string back |
| Utf8.EncodeDecode | src/crypto-utils.ts:72 | every byte string the strict decoder accepts is the encoding of its text |
| Utf8.DecodeNonEmpty | src/crypto-utils.ts:72 | non-empty accepted bytes decode to non-empty text |
| Text.Split | src/crypto-utils.ts:27 | `split(',')` yields at least one piece |
| Text.SplitJoin | src/crypto-utils.ts:27 | the pieces contain no comma and rejoined with commas give the text back |
| Text.JoinSplit | src/crypto-utils.ts:27 | splitting comma-free pieces joined with commas gives the pieces back |
| Text.SplitAfter | src/crypto-utils.ts:27 | a comma-free prefix followed by a comma becomes the first piece, and the rest splits on its own |
| Text.NatToStringValue | src/lotto-service.ts:118 | the decimal text of a count reads back as that count |
| CryptoUtils.EncodeCredentialsSimple | src/crypto-utils.ts:16-19 | the result Base64-decodes to the UTF-8 bytes of `id,password` |
| CryptoUtils.DecodeCredentialsSimple | src/crypto-utils.ts:24-37 | every failure starts with `Base64 디코딩 실패: `, followed by the decoding cause when the text does not decode; an accepted id and password are non-empty; decoded text without a comma or with an empty id or password is rejected with the format message |
| CryptoUtils.DecodeSimpleFields | src/crypto-utils.ts:27-33 | a pair is accepted exactly when it is the first two comma-separated fields of the text, both non-empty, whatever follows a second comma |
| CryptoUtils.SimpleRoundTrip | src/crypto-utils.ts:16-37 | a non-empty, comma-free id and password decode back from their simple encoding |
| CryptoUtils.KeyBytes | src/crypto-utils.ts:42-45 | the key is the UTF-8 of the given key, or of `'default-key'` when none is given |
| CryptoUtils.XorStreamCancels | src/crypto-utils.ts:49-51 | applying the repeating key stream twice is the identity, for every key |
| CryptoUtils.EmptyKeyOnlyEncodes | src/crypto-utils.ts:42-57 | with an empty key string every byte is XORed with `undefined`, so `encrypt` returns the plain Base64 of the text's UTF-8 |
| CryptoUtils.XorBuffer | src/crypto-utils.ts:47-51 | the buffer filled by the loop holds `data[i] ^ key[i mod |key|]` at every position |
| CryptoUtils.Encrypt | src/crypto-utils.ts:42-57 | returns `Encrypted(text, key)` |
| CryptoUtils.Decrypt | src/crypto-utils.ts:62-76 | returns `Decrypted(text, key)`, errors included |
| CryptoUtils.EncryptedBytes | src/crypto-utils.ts:45-53 | before Base64, the output has the text's byte length and byte i is `data[i] ^ key[i mod |key|]` |
| CryptoUtils.DecryptEncrypt | src/crypto-utils.ts:42-76 | decrypting with the key used to encrypt gives the text back, with a key or with the default on both sides |
| CryptoUtils.WrongKeyGarbles | src/crypto-utils.ts:62-72 | a key differing at a covered position never decrypts to the original text |
| CryptoUtils.EncryptCredentials | src/crypto-utils.ts:81-86 | each encrypted field decrypts back to its own field with the same key |
| CryptoUtils.DecryptCredentials | src/crypto-utils.ts:91-100 | succeeds exactly when both fields decrypt; the fields are their decryptions; the id's failure is reported first |
| CryptoUtils.CredentialsRoundTrip | src/crypto-utils.ts:81-100 | encrypting then decrypting credentials with the same key returns them |
| CryptoUtils.DecryptedNonEmpty | src/crypto-utils.ts:62-76 | under this model's strict decoders, a non-empty ciphertext that decrypts gives non-empty text |
| LottoService.GetCredentials | src/lotto-service.ts:69-91 | simple mode when `credentials` is non-empty, else advanced mode when both encrypted fields are non-empty, else the not-configured error; a decoding failure is the mode's prefix followed by the decoder's own message |
| LottoService.SimpleModeIgnoresAdvanced | src/lotto-service.ts:70-79 | with `credentials` set, the advanced fields make no difference |
| LottoService.ResolvedCredentialsNonEmpty | src/lotto-service.ts:69-91 | resolved credentials have a non-empty id and password in either mode, given the strict decoders of this model |
| LottoService.SimpleConfigResolves | src/lotto-service.ts:73-79 | credentials stored in simple mode resolve to themselves |
| LottoService.AdvancedConfigResolves | src/lotto-service.ts:82-88 | credentials stored in advanced mode resolve to themselves, with the key passed through or absent |
| LottoService.LottoClient.SignIn | src/lotto-service.ts:108 | records the sign-in request with its credentials and answers as configured |
| LottoService.LottoClient.Purchase | src/lotto-service.ts:113 | records the purchase request with its count and answers as configured |
| LottoService.LottoClient.Check | src/lotto-service.ts:161 | records the check request with its numbers and round and answers as configured |
| LottoService.LottoClient.Destroy | src/lotto-service.ts:183 | records the destroy request and answers as configured |
| LottoService.LottoClient.LastRound | src/lotto-service.ts:158 | the latest round, asked for without any request to the site |
| LottoService.PurchaseStep | src/lotto-service.ts:93-126 | an out-of-range count fails with no request and no flag change; a credential failure makes no request; otherwise the requests are the sign-in with the resolved credentials when not signed in, then exactly one `purchase(count)` unless that sign-in failed; the flag rises only on a successful sign-in; success carries the collaborator's numbers and `${count}` message; other failures are `구매 실패: ` followed by the cause: the credential error (the not-configured text included), the sign-in fault or the purchase fault |
| LottoService.TwoPurchasesSignInOnce | src/lotto-service.ts:104-110 | a successful purchase followed by another signs in exactly once |
| LottoService.FailedSignInRetried | src/lotto-service.ts:104-110 | a failed sign-in leaves the flag false, so the next purchase signs in again |
| LottoService.NumbersErrorNone | src/lotto-service.ts:131-155 | validation passes exactly when the list is non-empty and every set has six numbers in 1..45 |
| LottoService.FirstInvalidSetDecides | src/lotto-service.ts:139-155 | the first invalid set decides the message: size before range |
| LottoService.ValidateNumbers | src/lotto-service.ts:131-155 | the nested loops with early returns give the specified first complaint |
| LottoService.CheckStep | src/lotto-service.ts:128-180 | invalid input fails with its message and no request; valid input makes one check for the given round or, when absent or 0, the latest; success has one result per set in order with rank 0 and `[]` as defaults, and the message `${targetRound}회차 당첨 결과를 확인했습니다.`; a failed check is `당첨 확인 실패: ` followed by the collaborator's error message |
| LottoService.LottoMCPService.constructor | src/lotto-service.ts:32 | a new service is not signed in |
| LottoService.LottoMCPService.PurchaseLotto | src/lotto-service.ts:93-126 | result, flag and requests are those of `PurchaseStep` |
| LottoService.LottoMCPService.CheckLottoWinning | src/lotto-service.ts:128-180 | result and requests are those of `CheckStep`; the flag is untouched |
| LottoService.LottoMCPService.Destroy | src/lotto-service.ts:182-185 | asks the collaborator to destroy, then clears the flag; a throwing destroy propagates and leaves the flag |
| McpServer.ListTools | src/index.ts:56-105 | exactly two tools, `purchase_lotto` and `check_lotto_winning`, with their input schemas |
| McpServer.ParsePurchaseArgs | src/index.ts:13-15 | accepts exactly the arguments the announced `purchase_lotto` schema admits, and yields the sent count, which is in 1..5; otherwise reports zod's non-empty issue list |
| McpServer.ParseCheckArgs | src/index.ts:17-20 | accepts exactly the arguments the announced `check_lotto_winning` schema admits once the row length is dropped; yields the sent rows and round unchanged, every number in 1..45; otherwise reports zod's non-empty issue list |
| McpServer.CheckSchemaStricterThanParser | src/index.ts:78-101 | arguments the announced schema admits always parse |
| McpServer.WrongRowLengthPassesParser | src/index.ts:18 | a row of numbers in 1..45 of any length other than six parses, although the announced schema demands six |
| McpServer.Route | src/index.ts:112-146 | an unknown name throws `Unknown tool: <name>`; a known name succeeds exactly when its arguments conform, and the call carries the parsed count, or the parsed rows and round, unchanged; a parse failure throws the parser's issues |
| McpServer.ErrorResponse | src/index.ts:147-161 | the envelope is marked `isError` and its message starts with `오류 발생: ` |
| McpServer.UnknownToolEnvelope | src/index.ts:144-160 | an unknown tool is answered with `오류 발생: Unknown tool: <name>` and `isError` |
| McpServer.CallTool | src/index.ts:108-162 | `isError` exactly when name or arguments are rejected, which reaches no service; otherwise the service gets the parsed fields and its result, success or failure, comes back as plain content |

## Left out

- `generateSecretKey` (src/crypto-utils.ts:105-107): it returns random bytes.
- The constructor of `LottoMCPService` (src/lotto-service.ts:35-67): Playwright/Chromium and Docker
  setup. The collaborator is the abstract `LottoClient` instead, with `getLastLottoRound` as its
  `LastRound` oracle.
- LottoService.LottoClient: the collaborator gives the same answer to every request of one kind. A site
  that answers differently over time is covered by one client per call, since the step functions take
  the replies as a parameter.
- The MCP SDK server, the stdio transport, `start`, `main` and the signal handlers (src/index.ts:165-194).
  `bin/lotto-mcp.js`, `src/encrypt-credentials.ts` and `test-mcp.js` are not part of this model: they
  do I/O only.
- `async`/`await`: every call is modelled as a sequential step.
- `JSON.stringify` of results: a response carries the result value itself.
- McpServer.IssuesText: a `ZodError`'s message is the JSON rendering of its issue list. Here it is the
  issue messages one per line, with zod's default message texts.
- Node's lenient decoders. `Buffer.from(x, 'base64')` skips invalid characters, and UTF-8 decoding puts
  U+FFFD in place of invalid bytes; neither ever throws. The model decodes strictly and reports
  `invalid Base64` / `invalid UTF-8` as the cause. Those two texts are this model's own, not the
  program's.
- Lone UTF-16 surrogates in JavaScript strings: Dafny characters are Unicode scalar values, so such strings
  cannot be written.
- The `catch` of `encrypt` (`암호화 실패: `): nothing inside it can throw for string inputs.
- The empty key: `key[i % 0]` is `undefined`, and `x ^ undefined` is `x`, so an empty key string leaves
  every byte unchanged. The model does the same (`KeyAt` is 0), and the round trip needs no
  precondition on the key.
- Numbers are integers. `z.number()` also admits fractions, and the service's range checks would
  compare them as they are. NaN and infinities are not modelled.
- The `!numbers` test in `checkLottoWinning`: after parsing, `numbers` is always an array, so only the
  empty list is modelled.
- The dispatcher's `'Unknown error'` branch: everything the handler's `try` can throw is an `Error`.
  Since the service never throws, the branch cannot be reached.
- Values a collaborator throws that are not `Error`s are covered, as `NonError`, giving
  `알 수 없는 오류`. A falsy but present `rank` other than 0 (such as NaN) is not modelled.
- LottoService.ResolvedCredentialsNonEmpty: it holds only because this model's Base64 decoder is strict.
  Advanced mode never tests the decrypted fields for emptiness (src/lotto-service.ts:82-88), unlike
  simple mode (src/crypto-utils.ts:29). Under Node's lenient decoding a truthy `encryptedId` such as
  `'A'` decodes to no bytes, so the program resolves it to the id `''` and signs in with it. The
  program therefore does not guarantee non-empty credentials in advanced mode.
