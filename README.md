# Chirpy core in Dafny

Chirpy is a small HTTP JSON API written in Go. Users register, log in and post
short texts called chirps. A login returns a JWT access token and a refresh
token. A webhook from a payment provider ("Polka") upgrades a user to "Chirpy Red".

This project models three things:

- **Credential extraction** (`Auth`). `GetBearerToken` reads `Authorization: <scheme> <token>`.
  `GetAPIKey` reads the webhook's `Authorization: ApiKey <key>`. Both work on the
  first value of the header and split it on single spaces.
- **The profanity filter** (`Profanity`). `cleanWords` masks "kerfuffle", "sharbert" and
  "fornax", in any letter case, with `****`, word by word.
- **The request handlers** of chirps.go and users.go (`Api`). These are methods of a class
  `ApiConfig` that holds the database tables as maps:
  - chirps, plus the order they were created in;
  - users, each with email, password hash and `is_chirpy_red`;
  - refresh tokens, each with its user and a revoked flag.

  Each handler runs the source's chain of checks with early returns. Its contract
  states the final status, the body and the new store, for every branch. Every
  handler keeps the store invariant `Valid()`: rows are keyed by their own id,
  every chirp is listed once, emails are unique, and chirps and refresh tokens
  belong to stored users.

Go strings are byte strings. So text is modelled as `seq<byte>` (`Text.Bytes`),
and the 140-character chirp limit counts bytes, as Go's `len` does.
`Text.Split`, `Text.Join`, `Text.TrimSpace` and `Text.Lower` model `strings.Split`,
`strings.Join`, `strings.TrimSpace` and `strings.ToLower` on ASCII.

Some collaborators are not part of this model. They enter as values of the
datatype `Api.Oracles`:

- JWT issuing and validation (internal/auth/jwt.go). `ValidateJWT` is a partial
  function from a token and a secret to a user id. Note that internal/auth/jwt.go:34-35
  ignores the error of `uuid.Parse` on the token's subject, so the oracle may return any id for a validly signed token.
- Password hashing and checking.
- `uuid.Parse`, as the value it returns and whether it succeeded. On an error the value is not
  assumed to be the nil UUID: google/uuid may return the bytes it decoded before the error.

Fresh ids, fresh refresh tokens (`MakeRefreshToken`) and the clock are parameters.

The query layer (`internal/database`) is not part of this model. The in-memory store
follows the schema's evident constraints:

- an insert with a taken primary key fails;
- a taken email fails (emails are unique);
- a chirp whose user is not stored fails (the foreign key).

An `UPDATE` on a missing row changes nothing and is not an error. The exception is
`UpgradeUserByID`: the handler answers 404 on its error, and the model raises that
error exactly when the user is not stored.

## Model

| member | source | states |
|---|---|---|
| `Text.Split` | internal/auth/bearer.go:11 | `strings.Split(s, " ")` gives one more word than `s` has spaces; no word contains a space; joining the words with single spaces gives back `s` |
| `Text.Join` | cleanWords.go:16 | `strings.Join(words, " ")`: the words with one space between each two neighbours; its properties are `JoinCount`, `Split`'s third ensures and `SplitJoin` |
| `Text.JoinCount` | cleanWords.go:16 | joining n space-free words yields exactly n - 1 spaces |
| `Text.SplitJoin` | cleanWords.go:6-16 | splitting a join of space-free words gives back those words, so `Split` and `Join` are inverse |
| `Text.SplitWordThen` | internal/auth/bearer.go:11 | a space-free word, a space, then any text splits into that word followed by the split of the text |
| `Text.SplitSecondWord` | internal/auth/polka.go:12-13 | in a text of a space-free word, a space, a space-free word and a rest that is empty or starts with a space, the split's second word is that second word |
| `Text.CountAppend` | internal/auth/bearer.go:12 | the number of spaces in a concatenation is the sum of the parts' counts |
| `Text.TrimSpace` | internal/auth/polka.go:11 | the result neither starts nor ends with ASCII white space (with `TrimSpaceAround`: it is the input without exactly its surrounding white space) |
| `Text.TrimSpaceUntouched` | internal/auth/polka.go:11 | a text that neither starts nor ends with white space is returned unchanged |
| `Text.Lower` | cleanWords.go:9 | `strings.ToLower` on ASCII, byte by byte; its properties are `LowerNoCapitals` and `LowerIdempotent` |
| `Text.LowerNoCapitals` | cleanWords.go:9 | same length; no upper-case ASCII letter is left; each byte is kept or shifted by 32, and every byte that is not an upper-case letter is kept |
| `Text.LowerIdempotent` | cleanWords.go:9 | lower-casing twice equals lower-casing once |
| `Text.TrimSpaceAround` | internal/auth/polka.go:11 | `TrimSpace` removes exactly the white space before and after a text that neither starts nor ends with white space |
| `Auth.GetBearerToken` | internal/auth/bearer.go:9-18 | missing header gives `MissingHeader`; otherwise success iff the first value has exactly one space and does not end with it; the token is the non-empty, space-free text after that space; every other failure is `MalformedHeader` |
| `Auth.BearerTokenOfTwoWords` | internal/auth/bearer.go:11-15 | any scheme word, one space and a non-empty space-free token yield that token: the scheme is never compared with "Bearer" |
| `Auth.BearerTokenRejectsExtraSpace` | internal/auth/bearer.go:12 | a value with two spaces anywhere (e.g. "Bearer  x") is malformed |
| `Auth.BearerTokenReadsFirstValue` | internal/auth/bearer.go:10-11 | only the first value of the header is examined |
| `Auth.BearerTokenValid` | internal/auth/auth_test.go:81-94 | "Bearer my-token-string" yields "my-token-string" |
| `Auth.BearerTokenNoAuthHeader` | internal/auth/auth_test.go:96-104 | no Authorization header is an error |
| `Auth.BearerTokenEmptyAuthHeader` | internal/auth/auth_test.go:106-115 | an empty value is malformed (it splits into one word) |
| `Auth.BearerTokenNoBearerPrefix` | internal/auth/auth_test.go:117-126 | a value without a space is malformed |
| `Auth.BearerTokenBearerOnly` | internal/auth/auth_test.go:128-137 | "Bearer " is malformed: the second word is empty |
| `Auth.BearerTokenOtherScheme` | internal/auth/bearer.go:11-15 | "Basic abc" yields "abc" |
| `Auth.GetAPIKey` | internal/auth/polka.go:9-16 | missing header gives `MissingHeader`; a present header succeeds iff its trimmed first value contains a space, otherwise `MalformedHeader` (the corrected case); the key is space-free |
| `Auth.KeyOfTrimmed` | internal/auth/polka.go:12-13 | on the trimmed value: success iff it contains a space, and then the key is space-free; otherwise `MalformedHeader` (the corrected case) |
| `Auth.ApiKeyOfWords` | internal/auth/polka.go:11-13 | a value that needs no trimming, made of a scheme word, a space, the key and then nothing or a space and more words, yields that key |
| `Auth.ApiKeyIsSecondWord` | internal/auth/polka.go:11-13 | the key is exactly the word between the first and the second space of the trimmed value, whatever follows |
| `Auth.ApiKeyPadded` | internal/auth/polka.go:11-13 | white space before and after a value that neither starts nor ends with white space never changes the outcome |
| `Auth.ApiKeyValid` | internal/auth/polka.go:11-13 | "ApiKey abc" yields "abc" |
| `Auth.ApiKeyNoAuthHeader` | internal/auth/polka.go:10-15 | no Authorization header gives `MissingHeader` |
| `Auth.ApiKeyTrimmed` | internal/auth/polka.go:11-13 | " ApiKey abc " yields "abc" |
| `Auth.ApiKeyThirdWordIgnored` | internal/auth/polka.go:12-13 | "ApiKey abc def" yields "abc" |
| `Auth.ApiKeyEmptyAfterDoubleSpace` | internal/auth/polka.go:12-13 | "ApiKey  abc" yields the empty key |
| `Auth.GetAPIKeyAsWritten` | internal/auth/polka.go:9-16 | the code as written: defined only when the trimmed value splits into two or more words; then it fails iff the header is missing and agrees with `GetAPIKey` |
| `Auth.ApiKeyOfOneWord` | internal/auth/polka.go:11-13 | a value of one word without surrounding white space splits into just that word, so `words[1]` does not exist; `GetAPIKey` reports `MalformedHeader` |
| `Auth.ApiKeyWithoutSchemeIndexesPastEnd` | internal/auth/polka.go:13 | a bare key splits into one word, so `words[1]` is out of range as written; `GetAPIKey` reports `MalformedHeader` |
| `Profanity.IsProfane` | cleanWords.go:9-10 | a word is banned iff its lower-case form is "kerfuffle", "sharbert" or "fornax"; `ProfaneIgnoresCase` states the case-insensitivity |
| `Profanity.Cleaned` | cleanWords.go:5-17 | the reference definition of `cleanWords`: split on single spaces, mask each banned word, join with single spaces; `CleanedWords`, `CleanedKeepsSpaces` and `CleanedIdempotent` state what it means |
| `Profanity.CleanWords` | cleanWords.go:5-17 | the slot-by-slot loop computes `Cleaned(sentence)` |
| `Profanity.CleanedWords` | cleanWords.go:6-16 | the output has as many words as the input; a word is `****` at its position if its lower-case form is banned, and is copied unchanged otherwise |
| `Profanity.CleanedKeepsSpaces` | cleanWords.go:6-16 | the filtered sentence has exactly as many spaces as the input |
| `Profanity.CleanedOneWord` | cleanWords.go:6-16 | a sentence of one word comes back as that word, masked iff banned |
| `Profanity.ProfaneIgnoresCase` | cleanWords.go:9 | a word is banned iff its lower-case form is banned |
| `Profanity.CleanedWithoutProfanity` | cleanWords.go:6-16 | a sentence with no banned word comes back unchanged, including empty words from adjacent spaces |
| `Profanity.CleanedIdempotent` | cleanWords.go:9-13 | filtering twice equals filtering once |
| `Profanity.MaskIsNotProfane` | cleanWords.go:10-11 | `****` contains no space and is not banned |
| `Profanity.CleanedMixedCase` | cleanWords.go:9-11 | "Fornax" is masked |
| `Profanity.CleanedUpperCase` | cleanWords.go:9-11 | "SHARBERT" is masked |
| `Profanity.CleanedPunctuationKept` | cleanWords.go:9-13 | "kerfuffle!" is not masked: matching is exact |
| `Api.Caller` | chirps.go:30-40 | the user named by `ValidateJWT` of the bearer token; a missing header never authenticates, and a caller implies the header value had exactly one space |
| `Api.ChirpIdOf` | chirps.go:117 | the value `uuid.Parse` returns is used whether or not it reported an error; when it succeeded, that is the parsed id |
| `Api.Remove` | chirps.go:163 | deleting a chirp removes exactly its id from the listing order and keeps the order free of duplicates |
| `Api.RemoveAbsent` | chirps.go:163 | removing an id that is not listed leaves the listing order as it is |
| `Api.RemoveAt` | chirps.go:163 | in a listing without duplicates, removing the id at position k cuts out exactly that slot: the other chirps keep their order |
| `Api.ApiConfig.constructor` | main.go:15-20 | a configuration with the given secrets and empty tables keeps the store invariant |
| `Api.ApiConfig.JsonHandler` | chirps.go:29-85 | a bearer failure gives 500; a bad token gives 401; a bad body gives 500; more than 140 bytes gives 400 "Chirp is too long"; a failed insert (the user is not stored or the id is taken) gives 500; 201 iff all checks pass and the insert succeeds; on 201 the body is stored verbatim (not filtered) under the token's user and appended to the order; otherwise chirps are unchanged |
| `Api.ApiConfig.HandlerChirps` | chirps.go:87-114 | 200 with one entry per stored chirp, in store order, every field copied |
| `Api.ApiConfig.HandlerSingleChirp` | chirps.go:116-139 | 200 with the chirp iff its id (whatever `uuid.Parse` returned, error or not) is stored, else 404 |
| `Api.ApiConfig.HandlerDeleteChirps` | chirps.go:141-169 | header or token failure gives 401, then an unknown id 404, then a non-owner 403; 204 iff the caller owns the chirp, and only then is it removed |
| `Api.ApiConfig.UserHandler` | users.go:38-71 | 201 iff the body decodes and email and id are free; the user is stored with the password hash and `is_chirpy_red` false; the response has empty tokens; otherwise 500 and no change |
| `Api.ApiConfig.UpdateUserHandler` | users.go:73-117 | header or token failure gives 401 with no change; after a valid token every failure (body, hash, taken email, missing user) gives 500 with no body and no change; 200 iff all checks pass; then the token's user (not the body's email) gets the new email and hash, and the response echoes the caller's access token and an empty refresh token |
| `Api.ApiConfig.HandlerLogin` | users.go:119-165 | an unknown email gives 500; a wrong password gives 401 "Incorrect email or password" and no token; a password-check error also gives 500, and every 500 has no body; a match gives 200; then, unless the fresh refresh token is already stored, exactly one new unrevoked refresh token is recorded for that user and returned with an access token; if it is already stored the answer stays 200 with no body and nothing is recorded; earlier tokens are untouched |
| `Api.ApiConfig.HandlerRefresh` | users.go:167-193 | a bearer failure gives 500; 200 with an access token for the token's user iff the refresh token is stored and not revoked, else 401 |
| `Api.ApiConfig.HandlerRevoke` | users.go:195-209 | a bearer failure gives 500 with no change; otherwise the stored token is marked revoked and the answer is 204; revoked tokens stay revoked |
| `Api.ApiConfig.HandlerUpgrade` | users.go:211-246 | missing or malformed header, or a wrong key, gives 401; another event gives 204; a bad id gives 500; an unknown user gives 404; the user is marked `is_chirpy_red` iff every check passes |
| `Api.RevokeThenRefresh` | users.go:167-209 | once revoke answers 204 for a header, refresh with that header answers 401 |
| `Api.DeleteThenGet` | chirps.go:116-169 | after the owner's delete answers 204, fetching the chirp answers 404 |

## Findings

| source | as written | input that shows it | evidently intended | confidence | as-written member | corrected member |
|---|---|---|---|---|---|---|
| internal/auth/polka.go:13 | `words[1]` is read without checking that the split has two words | `Authorization: f271c81ff7084ee5b99a5091b42cc2c9` (a key with no scheme word): the trimmed value splits into one word, so the index is out of range and the handler panics | a header with no space is rejected as malformed, and `handlerUpgrade` answers 401 | high (not executed) | `Auth.GetAPIKeyAsWritten`, `Auth.ApiKeyWithoutSchemeIndexesPastEnd` | `Auth.GetAPIKey` |

`Api.ApiConfig.HandlerUpgrade` uses the corrected `Auth.GetAPIKey`.

## Left out

- HTTP routing, server start-up, environment loading and static file serving (main.go) are not modelled. Neither is the hit counter, which is an atomic counter for concurrent requests, nor the reset handler, which deletes all users and is gated on an environment variable.
- JWT issuing and validation (internal/auth/jwt.go) are oracles. HMAC-SHA256 signatures and expiry times cannot be modelled faithfully here.
- Password hashing, password checking, `MakeRefreshToken` and `uuid.Parse` are oracles. Their code is not part of this model.
- The SQL queries are not part of this model. Generic database failures (a lost connection answering 500) are not modelled: a store operation fails only on the key conditions listed above.
- The age of refresh tokens (their fixed lifetime) is not modelled. The handler checks only the revoked flag.
- User timestamps (`created_at`, `updated_at`) are not modelled. The query layer sets them. Chirps keep the timestamps given at creation.
- Api.ApiConfig.UserHandler: the hash `CreateUser` stores before `UpdatePassword` runs is modelled as empty. The schema default is not part of this model, and no response shows it.
- JSON encoding and decoding, logging, and response headers are not modelled. A body the decoder rejects is `None`. `json.Marshal` of these structs cannot fail.
- net/http keeps the first `WriteHeader`. So the 500s written after an earlier 200 in `handlerLogin` and `handlerRefresh` never reach the client. The model states the final status only.
- Api.ApiConfig.HandlerLogin, Api.ApiConfig.HandlerRefresh: `MakeJWT` with a byte-slice key does not fail, so its error branch is not modelled (users.go:147-151 and users.go:184-189).
- Unicode: `strings.ToLower` and `strings.TrimSpace` are modelled on ASCII. Non-ASCII case mappings, such as the Kelvin sign lowercasing to `k`, are not modelled. Neither are non-ASCII spaces such as U+0085 and U+00A0.
- Auth.GetBearerToken, Auth.GetAPIKey: both read `value[0]` and require a present `Authorization` header to carry at least one value (`HasFirstValue`). net/http never records a header name without a value, so the index panic on an empty value list is not modelled.
- Concurrency between requests is not modelled. Each handler runs as one atomic step on the store.
