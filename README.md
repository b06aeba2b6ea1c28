# Saleor Openweb3 payment app: verified model of its core

This project models, in Dafny, the three parts of the Saleor payment app for
the Openweb3 wallet provider that hold real logic:

- **`RedisAPL`**, the store of app authentication records. Each record lives
  as JSON text under `keyPrefix + saleorApiUrl`. The set under
  `keyPrefix + "index"` lists every URL written, and `getAll` repairs that
  index while it reads. The Redis server is modelled as a class `Redis` with
  one keyspace (each key holds a string with an optional expiry, or a set),
  a millisecond clock, and the commands the store sends: GET, SET, SETEX,
  SADD, SREM, DEL, SMEMBERS and MGET. A pipeline is its commands applied in
  order, each error dropped. JSON stays abstract: a `Codec` pairs a
  stringify and a parse function, and `RoundTrips` (parse after stringify
  gives the record back) is the only assumption made about them.
- **`EmailVerificationStore`**, the in-memory map from email to
  `{code, userId, expiresAt}`, with its one-minute sweep of expired codes.
  The clock (`Date.now()`) and the random draw (`Math.random()`) are
  parameters.
- **The pure mappings of `openweb3-api.ts`**: provider order status to Saleor
  transaction result, session event to payment-intent parameters, key
  validation, and the order `uid` that the webhook later splits to recover
  the transaction id.

Files:

- `common.dfy` (module `Common`): `Option`, `Outcome`, prefix test,
  JavaScript `split` on one character, and decimal rendering of numbers.
- `redis_backend.dfy` (module `RedisBackend`): the Redis keyspace, its commands, and the `Redis` class.
- `redis_apl.dfy` (module `RedisApl`): configuration resolution, key derivation, the specification functions of each operation, and the `RedisAPL` class.
- `redis_apl_properties.dfy` (module `RedisAplProperties`): round-trip, frame, repair, ttl and isolation lemmas.
- `redis_apl_scenarios.dfy` (module `RedisAplScenarios`): the store's test cases as programs over a fresh server.
- `email_verification.dfy` (module `EmailVerification`), `email_verification_scenarios.dfy` (module `EmailVerificationScenarios`).
- `openweb3_api.dfy` (module `Openweb3Api`).

Three behaviours of the code worth knowing up front; the model follows the code:

- `verifyCode` deletes the entry on every failed attempt (wrong user, wrong code or expired), not only on expiry.
- The "pipeline for atomic operations" in `set` and `delete` is two ordered writes whose errors are dropped. Nothing makes them atomic.
- `getAll` repairs the index one member at a time, in the order SMEMBERS returned.

## Model

| member | source | states |
|---|---|---|
| Common.Split | src/modules/webhooks/openweb3-webhook.ts:126 | `split("-")` gives at least one piece, at least two exactly when the separator occurs, and no piece holds the separator |
| Common.SplitNoSeparator | src/modules/webhooks/openweb3-webhook.ts:126 | a string without the separator splits into itself alone |
| Common.SplitAfterSeparator | src/modules/webhooks/openweb3-webhook.ts:126 | splitting `a + sep + b`, with `a` free of separators, yields `a` followed by the pieces of `b` |
| Common.DecimalString | src/utils/emailVerification.ts:18 | `toString()` of a non-negative integer is a non-empty digit string that reads back as that integer |
| Common.DecimalLength | src/utils/emailVerification.ts:18 | a number with `k` digits renders as `k` characters |
| RedisBackend.Expire | src/lib/redis-apl.ts:145-146 | at a given time, exactly the keys still live remain, each unchanged |
| RedisBackend.GetCmd | src/lib/redis-apl.ts:118 | GET is nil for an absent key, the string for a string, and WRONGTYPE for a set |
| RedisBackend.StrAt | src/lib/redis-apl.ts:199 | MGET reads a key holding no string as nil |
| RedisBackend.MGetCmd | src/lib/redis-apl.ts:199 | MGET gives one reply per key, in key order, and never fails |
| RedisBackend.SetCmd | src/lib/redis-apl.ts:148 | SET replaces whatever the key held with a string that never expires; other keys are unchanged |
| RedisBackend.SetExCmd | src/lib/redis-apl.ts:146 | SETEX fails exactly for a non-positive number of seconds; otherwise it stores the string to expire `seconds*1000` ms from now |
| RedisBackend.SAddCmd | src/lib/redis-apl.ts:152 | SADD adds the member and creates the set if needed; it fails with WRONGTYPE exactly on a string; other keys are unchanged |
| RedisBackend.SRemCmd | src/lib/redis-apl.ts:173 | SREM removes the member and deletes a set left empty; an absent key is a no-op; WRONGTYPE exactly on a string |
| RedisBackend.DelCmd | src/lib/redis-apl.ts:172 | DEL removes the key and only that key |
| RedisBackend.SMembersCmd | src/lib/redis-apl.ts:190 | SMEMBERS gives the set's members, empty for an absent key, WRONGTYPE on a string |
| RedisBackend.Applied | src/lib/redis-apl.ts:154 | a pipelined command that errors has no effect |
| RedisBackend.CommandsKeepWellFormed | src/lib/redis-apl.ts:143-154 | every writing command keeps all keys live and all sets non-empty |
| RedisBackend.Redis.constructor | src/lib/redis-apl.ts:67 | a fresh server is empty |
| RedisBackend.Redis.Tick | src/lib/redis-apl.ts:145-146 | time passes and exactly the expired keys disappear |
| RedisBackend.Redis.Set | src/lib/redis-apl.ts:148 | the keyspace becomes the SET result |
| RedisBackend.Redis.SetEx | src/lib/redis-apl.ts:146 | reports failure exactly for non-positive seconds, and applies SETEX otherwise |
| RedisBackend.Redis.SAdd | src/lib/redis-apl.ts:152 | reports failure exactly when SADD errs; the keyspace becomes the applied result |
| RedisBackend.Redis.SRem | src/lib/redis-apl.ts:173 | reports failure exactly when SREM errs; the keyspace becomes the applied result |
| RedisBackend.Redis.Del | src/lib/redis-apl.ts:172 | the keyspace becomes the DEL result |
| RedisBackend.Redis.SMembers | src/lib/redis-apl.ts:190 | lists every member of the set exactly once, or fails with WRONGTYPE exactly when the key holds a string |
| RedisApl.ResolveKeyPrefix | src/lib/redis-apl.ts:59 | an absent or empty prefix falls back to `saleor:auth:`; any other prefix is kept; the result is never empty |
| RedisApl.ResolveTransport | src/lib/redis-apl.ts:64-76 | TLS is used when `tls` is true, or when `tls` is absent and the URL starts with `rediss://`; certificates are checked unless `tlsRejectUnauthorized` is false |
| RedisApl.RetryDelay | src/lib/redis-apl.ts:77-81 | the delay is min(times*50, 2000): never above either, and never negative for a non-negative attempt count |
| RedisApl.RetryDelayMonotone | src/lib/redis-apl.ts:78 | a later attempt never waits less than an earlier one |
| RedisApl.IsReady | src/lib/redis-apl.ts:231-252 | ready exactly for the statuses `ready`, `connect` and `connecting`; otherwise it reports "Redis client not ready, status: " with the status |
| RedisApl.IsConfigured | src/lib/redis-apl.ts:257-269 | configured exactly when PING succeeds; a failed PING is reported with its error, never thrown |
| RedisApl.KeyFor | src/lib/redis-apl.ts:108-110 | a record key is the prefix followed by the URL verbatim |
| RedisApl.IndexKey | src/lib/redis-apl.ts:60 | the index key equals the record key of the URL `index` |
| RedisApl.KeysFor | src/lib/redis-apl.ts:198 | gives one key per URL, in order |
| RedisApl.GetResult | src/lib/redis-apl.ts:115-131 | `get` returns nothing for an absent key or an empty string; otherwise it returns the parsed record; it fails on a parse failure or a set under the key |
| RedisApl.IndexOf | src/lib/redis-apl.ts:190 | the index is what SMEMBERS reports at the index key; a missing index, or a string under the index key, reads as empty |
| RedisApl.TtlActive | src/lib/redis-apl.ts:145 | `ttl` is truthy: present and not 0. When it holds the record is written with SETEX and expires after ttl seconds (TtlRecordExpires), or not at all for a negative ttl (NegativeTtlStoresNothing); otherwise it never expires (NoTtlNeverExpires) |
| RedisApl.SetEffect | src/lib/redis-apl.ts:137-154 | the keyspace after `set`: SET or SETEX, then SADD, each error dropped. The record reads back (GetAfterSet), only its key and one index member change (SetFrame), and a second `set` replaces the first (SetOverwrites) |
| RedisApl.DeleteEffect | src/lib/redis-apl.ts:166-175 | the keyspace after `delete`: DEL then SREM, errors dropped. The record is gone (GetAfterDelete), nothing else changes (DeleteFrame), and an unknown URL changes nothing (DeleteUnknownIsNoop) |
| RedisApl.Classify | src/lib/redis-apl.ts:204-217 | an MGET value is missing (nil or empty), kept (parses, with that record) or unparseable |
| RedisApl.Collected | src/lib/redis-apl.ts:205-207 | the records `getAll` returns, in listing order: exactly the kept ones (CollectedMembers), one per member when all parse (CollectedAllKept) |
| RedisApl.RepairStep | src/lib/redis-apl.ts:204-217 | one repair turn: a kept member is left alone, an unparseable one goes through `delete`, a missing one is removed from the index. It drops the index member exactly when the value is not kept (RepairStepIndex), and deletes a record key only for an unparseable value (RepairStepKeys) |
| RedisApl.Repaired | src/lib/redis-apl.ts:203-218 | the repair turns applied in listing order. Afterwards a listed member stays indexed exactly when its value parsed (RepairedIndex), and only unparseable members' keys are gone (RepairedKeys) |
| RedisApl.Verdicts | src/lib/redis-apl.ts:203 | gives one verdict per MGET value, in order |
| RedisApl.RedisAPL.constructor | src/lib/redis-apl.ts:58-61 | prefix, index key, ttl and transport are resolved once from the configuration |
| RedisApl.RedisAPL.Get | src/lib/redis-apl.ts:115-131 | returns `GetResult` of the current keyspace at the record's key |
| RedisApl.RedisAPL.Set | src/lib/redis-apl.ts:137-161 | the keyspace becomes SET (or SETEX when ttl is truthy) then SADD to the index, each error dropped |
| RedisApl.RedisAPL.Delete | src/lib/redis-apl.ts:166-182 | the keyspace becomes DEL of the record key then SREM from the index, each error dropped; it never fails |
| RedisApl.RedisAPL.RepairMember | src/lib/redis-apl.ts:204-217 | one loop turn of `getAll`: a parsed record is returned with nothing changed; an unparseable member is deleted through `delete`; a missing one is removed from the index by an SREM that cannot fail |
| RedisApl.RedisAPL.GetAll | src/lib/redis-apl.ts:187-226 | fails exactly when SMEMBERS does, changing nothing; otherwise returns the kept records in listing order and leaves the keyspace repaired member by member; an empty index gives `[]` and changes nothing |
| RedisAplProperties.KeyForInjective | src/lib/redis-apl.ts:108-110 | distinct URLs never share a record key |
| RedisAplProperties.RecordKeyIsIndexKeyIff | src/lib/redis-apl.ts:60 | a record key equals the index key exactly for the URL `index` |
| RedisAplProperties.GetAfterSet | src/lib/redis-apl.ts:137-161 | after `set(a)`, `get(a.saleorApiUrl)` returns exactly `a`, unless ttl is negative |
| RedisAplProperties.SetOverwrites | src/lib/__tests__/redis-apl.test.ts:70-83 | a second `set` for the same URL makes `get` return the second record, with no field merge |
| RedisAplProperties.SetFrame | src/lib/redis-apl.ts:137-154 | `set` writes only the record key and adds only its URL to the index; every other key and member is unchanged |
| RedisAplProperties.NegativeTtlStoresNothing | src/lib/redis-apl.ts:145-152 | a negative ttl is truthy, so SETEX is refused; the record is not written but its URL still joins the index |
| RedisAplProperties.GetAfterDelete | src/lib/redis-apl.ts:166-175 | after `delete(u)`, `get(u)` returns nothing |
| RedisAplProperties.DeleteFrame | src/lib/redis-apl.ts:166-175 | `delete(u)` removes the record key and `u` from the index, and nothing else |
| RedisAplProperties.DeleteUnknownIsNoop | src/lib/redis-apl.ts:166-175 | deleting a URL never stored changes nothing |
| RedisAplProperties.RepairStepIndex | src/lib/redis-apl.ts:204-217 | one repair step removes the member from the index exactly when its value is missing or unparseable |
| RedisAplProperties.RepairedIndex | src/lib/redis-apl.ts:203-218 | after the repair loop, a listed member stays in the index exactly when its value parsed; unlisted members are unchanged |
| RedisAplProperties.RepairStepKeys | src/lib/redis-apl.ts:208-212 | one repair step deletes a record key only for an unparseable value |
| RedisAplProperties.RepairedKeys | src/lib/redis-apl.ts:203-218 | after the repair loop, unparseable members' keys are gone and every other non-index key is unchanged |
| RedisAplProperties.CollectedMembers | src/lib/redis-apl.ts:205-207 | the records returned are exactly the kept ones |
| RedisAplProperties.CollectedAllKept | src/lib/redis-apl.ts:205-207 | when every value parses, one record is returned per member |
| RedisAplProperties.GetAllRepair | src/lib/redis-apl.ts:187-226 | after `getAll`, the index holds exactly the members whose value parsed; their records still read back; unparseable members' keys are gone; other keys are unchanged |
| RedisAplProperties.TtlRecordExpires | src/lib/redis-apl.ts:145-146 | with a positive ttl, the record is readable at once and gone once more than ttl seconds have passed |
| RedisAplProperties.IndexEntryOutlivesRecord | src/lib/redis-apl.ts:145-152 | the record's expiry leaves its URL in the index |
| RedisAplProperties.NoTtlNeverExpires | src/lib/redis-apl.ts:145-148 | with ttl absent or 0, the record is readable at any later time |
| RedisAplProperties.DisjointPrefixes | src/lib/redis-apl.ts:108-110 | when neither prefix starts the other, no key carries both |
| RedisAplProperties.RepairedOutsidePrefix | src/lib/redis-apl.ts:203-218 | the repair writes of `getAll` touch only keys that start with the instance's prefix |
| RedisAplProperties.OtherInstanceInvisible | src/lib/redis-apl.ts:137-218 | `set`, `delete` and the repair writes of `getAll` on one instance leave every key under a non-overlapping prefix unchanged |
| RedisAplProperties.TestPrefixesNotIsolated | src/lib/__tests__/redis-apl.test.ts:7-152 | the ttl test instance's record is visible to the base test instance under URL `ttl:` + its URL |
| RedisAplProperties.IndexUrlClobbersIndex | src/lib/redis-apl.ts:60-152 | storing a record for URL `index` overwrites the index with the record text; the index then reads as empty, listing fails with WRONGTYPE, and `get("index")` still returns the record |
| RedisAplScenarios.StoreAndRetrieve | src/lib/__tests__/redis-apl.test.ts:58-63 | a stored record reads back unchanged |
| RedisAplScenarios.GetUnknown | src/lib/__tests__/redis-apl.test.ts:65-68 | an unknown URL reads as nothing |
| RedisAplScenarios.OverwriteReplaces | src/lib/__tests__/redis-apl.test.ts:70-83 | the second record stored under a URL replaces the first |
| RedisAplScenarios.DeleteThenGet | src/lib/__tests__/redis-apl.test.ts:87-97 | a record is readable before `delete` and gone after |
| RedisAplScenarios.DeleteUnknown | src/lib/__tests__/redis-apl.test.ts:99-103 | deleting an unknown URL completes and leaves the server empty |
| RedisAplScenarios.GetAllEmpty | src/lib/__tests__/redis-apl.test.ts:107-110 | listing an empty store gives `[]` |
| RedisAplScenarios.ListingLength | src/lib/redis-apl.ts:190 | a listing of a set has as many entries as the set |
| RedisAplScenarios.ThreeStored | src/lib/__tests__/redis-apl.test.ts:112-135 | three `set` calls with distinct URLs leave three records and a three-member index |
| RedisAplScenarios.ListsThree | src/lib/__tests__/redis-apl.test.ts:137-145 | over such a server, `getAll` returns the three records in any listing order |
| RedisAplScenarios.GetAllThree | src/lib/__tests__/redis-apl.test.ts:112-145 | three stored records are all listed, three in all |
| RedisAplScenarios.TtlExpiry | src/lib/__tests__/redis-apl.test.ts:148-176 | with ttl 2 s, a record is readable at once and gone after 2.5 s |
| RedisAplScenarios.CustomPrefix | src/lib/__tests__/redis-apl.test.ts:178-200 | a custom prefix is used verbatim for the record key |
| EmailVerification.GenerateCode | src/utils/emailVerification.ts:17-19 | the code is six decimal digits whose value lies between 100000 and 999999 |
| EmailVerification.Accepts | src/utils/emailVerification.ts:44-48 | an entry accepts a code from a user at `now` when owner, code and `now <= expiresAt` all match; `verifyCode` returns true exactly when the stored entry accepts (VerifyCode) |
| EmailVerification.Unexpired | src/utils/emailVerification.ts:68-75 | the sweep keeps exactly the entries with `now <= expiresAt`, each unaltered |
| EmailVerification.UnexpiredIdempotent | src/utils/emailVerification.ts:68-75 | sweeping twice at the same time equals sweeping once |
| EmailVerification.EmailVerificationStore.constructor | src/utils/emailVerification.ts:8-14 | the store starts empty with the sweep scheduled |
| EmailVerification.EmailVerificationStore.AddVerificationCode | src/utils/emailVerification.ts:22-36 | the email maps to the fresh code, the caller's user and `now + 600000`, replacing any entry whoever owned it; other emails are unchanged |
| EmailVerification.EmailVerificationStore.VerifyCode | src/utils/emailVerification.ts:39-54 | true exactly when an entry exists with that user, that code and `now <= expiresAt`; a success or a missing entry leaves the store unchanged; any other failure deletes the entry |
| EmailVerification.EmailVerificationStore.GetUserId | src/utils/emailVerification.ts:57-60 | gives the stored user id, or nothing when there is no entry, and reads only |
| EmailVerification.EmailVerificationStore.RemoveEmail | src/utils/emailVerification.ts:63-65 | deletes that email's entry and nothing else |
| EmailVerification.EmailVerificationStore.CleanupExpiredCodes | src/utils/emailVerification.ts:68-75 | the loop leaves exactly `Unexpired(old store, now)` |
| EmailVerification.EmailVerificationStore.CleanupTick | src/utils/emailVerification.ts:78-83 | a timer firing sweeps while scheduled and changes nothing once stopped |
| EmailVerification.EmailVerificationStore.StopCleanupTask | src/utils/emailVerification.ts:86-91 | unschedules the sweep and leaves the store unchanged |
| EmailVerificationScenarios.IssueThenVerify | src/utils/emailVerification.ts:39-54 | a code verifies for its owner up to its expiry instant, twice, and stays stored |
| EmailVerificationScenarios.ExpiredCodeRejected | src/utils/emailVerification.ts:44-51 | one millisecond past expiry the code fails and the entry is gone |
| EmailVerificationScenarios.WrongGuessLocksOut | src/utils/emailVerification.ts:44-51 | after a wrong code, the right code also fails |
| EmailVerificationScenarios.OtherUserLocksOut | src/utils/emailVerification.ts:44-51 | another user presenting the code makes the owner's attempt fail too |
| EmailVerificationScenarios.ReissueInvalidatesEarlier | src/utils/emailVerification.ts:22-36 | a second code for the email invalidates the first |
| EmailVerificationScenarios.VerifyThenRemove | src/pages/api/email/bind/index.ts:32-40 | verify, remove, verify gives true then false |
| EmailVerificationScenarios.EmailsIndependent | src/utils/emailVerification.ts:63-65 | removing one email leaves another verifiable |
| EmailVerificationScenarios.SweepBoundary | src/utils/emailVerification.ts:68-75 | a sweep at the expiry instant keeps the code, one a millisecond later removes it |
| EmailVerificationScenarios.StoppedSweepRemovesNothing | src/utils/emailVerification.ts:86-91 | once stopped (twice, harmlessly), the timer removes nothing |
| Openweb3Api.ClassOf | src/modules/openweb3/openweb3-api.ts:102-115 | PAID and COMPLETED succeed, EXPIRED and FAILED fail, every other status needs action |
| Openweb3Api.TransactionResult | src/modules/openweb3/openweb3-api.ts:81-116 | fails the invariant, naming the strategy, exactly for an unsupported strategy; otherwise gives the strategy's prefix followed by the status class's suffix, one of the six Saleor results |
| Openweb3Api.TransactionResultInjective | src/modules/openweb3/openweb3-api.ts:89-115 | two results are equal exactly when the strategies and the status classes are |
| Openweb3Api.Indexed | src/modules/openweb3/openweb3-api.ts:45 | spreading an array-like value puts item `i` under the key `String(i)` and adds no other key |
| Openweb3Api.Characters | src/modules/openweb3/openweb3-api.ts:45 | a string spreads as its characters, one one-character string each |
| Openweb3Api.Spread | src/modules/openweb3/openweb3-api.ts:45 | object spread copies an object's fields, an array's items or a string's characters under decimal indices, and nothing for null, booleans or numbers |
| Openweb3Api.SpreadOption | src/modules/openweb3/openweb3-api.ts:51 | spreading `undefined` copies nothing |
| Openweb3Api.MetadataOf | src/modules/openweb3/openweb3-api.ts:51 | `data.metadata` is the object's field, and `undefined` otherwise |
| Openweb3Api.IntentMetadata | src/modules/openweb3/openweb3-api.ts:50-56 | `transactionId` and `channelId` always come from the event; `checkoutId` comes from a checkout and `orderId` from an order; every other inherited field survives unchanged, and no new field appears |
| Openweb3Api.InitializeEventToCreate | src/modules/openweb3/openweb3-api.ts:39-58 | a null `data` throws a TypeError; otherwise the keys are those of `data` plus amount, currency, capture_method and metadata; amount and currency come from the gross total; capture is `automatic` exactly for Charge and `manual` otherwise; other `data` fields are carried over |
| Openweb3Api.ProcessEventToUpdate | src/modules/openweb3/openweb3-api.ts:60-79 | agrees with the initialize mapping on every event |
| Openweb3Api.ValidateKeys | src/modules/openweb3/openweb3-api.ts:17-32 | rejects with "Restricted keys are not supported" exactly when either key is empty, and passes otherwise |
| Openweb3Api.Uid | src/modules/openweb3/openweb3-api.ts:150-151 | the uid is the user id, a dash and the transaction id, with a missing value rendered `undefined` |
| Openweb3Api.SecondField | src/modules/webhooks/openweb3-webhook.ts:125-126 | the webhook reads a second field exactly when the uid holds a dash, and the field holds no dash |
| Openweb3Api.SecondFieldOfUid | src/modules/webhooks/openweb3-webhook.ts:125-126 | the webhook's reading of a uid: the second piece of the user id when it holds a dash, else the transaction id up to its first dash |
| Openweb3Api.FirstFieldWhole | src/modules/webhooks/openweb3-webhook.ts:126 | the first field of a string is the whole string exactly when it holds no dash |
| Openweb3Api.UidRoundTrip | src/modules/openweb3/openweb3-api.ts:151 | for a dash-free user id, including a missing one, the webhook recovers the transaction id exactly when that holds no dash |
| Openweb3Api.DashedUserIdHidesTransaction | src/modules/openweb3/openweb3-api.ts:151 | with a dashed user id, the webhook's reading does not depend on the transaction id |
| Openweb3Api.DashedUserIdExample | src/modules/openweb3/openweb3-api.ts:151 | for user `a-b`, transaction `c` is read back as `b` |
| Openweb3Api.IntentUidNamesTransaction | src/modules/openweb3/openweb3-api.ts:150-151 | the created intent's metadata carries the session's transaction id, which a dash-free uid gives back |

## Left out

- ioredis internals: connection events, logging, `maxRetriesPerRequest`, `reconnectOnError`, and the client options object. Only the TLS decision and the retry delay are modelled.
- `disconnect`: it only forwards the error of `quit` unchanged, a foreign call.
- `isReady`: the `catch` branch cannot be reached by reading `status`, so the model has no error path there.
- Concurrency and crashes. Interleavings of concurrent requests are out, and so is a crash between the two pipelined writes. The model is sequential over one server.
- Redis's own expiry clock. Expiry is eager at `Redis.Tick`, which a client cannot tell apart from Redis's lazy expiry.
- Partial pipeline results returned by `exec()`. The code ignores them, and so does the model.
- JSON: `JSON.stringify`/`JSON.parse` on records are the abstract `Codec`. The cast of a parsed value to `AuthData` is taken as a check.
- RedisApl.RedisAPL.GetAll: the order of the listing is a ghost out-parameter. The model lets SMEMBERS choose any order, as Redis does. It does not model a set that changes between SMEMBERS and MGET.
- Fractional ttl values: ttl is a whole number of seconds in the model.
- `Math.random()` and `Date.now()` are parameters (`draw`, `now`). `setInterval`/`clearInterval` become the `cleanupScheduled` flag and explicit `CleanupTick` calls.
- The process-wide singleton `emailVerificationStore` is a constructed object.
- `verifyCode` called with an undefined `userId` (the bind handler passes `userId!`) is outside the model: user ids are strings.
- Floating point: amounts are reals, copied unchanged.
- EmailVerification.GenerateCode: `draw * 900000` is exact real arithmetic; the rounding of JavaScript doubles before `Math.floor` is not modelled.
- JSON object key order, and insertion order of the resulting objects, are not kept (maps).
- Openweb3Api.Uid: only string or missing user and transaction ids are rendered. Other JSON values in `metadata.userId` would need JavaScript's template conversion.
- Provider SDK calls (`ApiClient`, `orders.retrieve/create`, `WebhookClient.verify`), `src/modules/openweb3/currencies.ts`, and the refund, cancel and capture wrappers that only build a client.
- `getOpenweb3ExternalUrlForIntentId` depends on `encodeURIComponent`, a library function.
- `getEnvironmentFromKey` only reads an environment variable.
- The `invariant` helper's own message formatting is not part of this model. The model keeps the message it is given.
- HTTP handlers, Saleor GraphQL plumbing, configuration management, UI and environment loading.
