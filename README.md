# Vert.x JDBC client configuration and UUID encoding — a Dafny model

This project models the parts of the `broken-4.3.5-vertx-jdbc-client-oracle`
harness that work without a database:

- **UUID encoding** (`UuidUtils.kt`). `toByteArray` writes the two signed
  64-bit halves of a `java.util.UUID` big-endian into a fresh 16-byte array,
  using a `ByteBuffer` whose position advances with each `putLong`. This is
  the 16-octet network-order layout of section 4.1.2 of RFC 4122.
  `adaptToVertxBuffer` wraps the 36-character 8-4-4-4-12 text form of
  section 3 of RFC 4122.
  - The `java.util.UUID` text form is modelled as five groups of lower-case
    hex digits cut from the two halves, which is the same text the JDK
    produces.
  - Its parser is modelled for the canonical 36-character layout.
  - The Oracle `RAWTOHEX`/`SUBSTR` regrouping that one scenario test uses
    to rebuild that text from the bytes is modelled in
    `raw_to_hex_regrouping.dfy`.
- **Configuration keys** (`PropertyKeys.kt`, `ConfigurationKeys.kt`). The
  three per-application key builders and the six normalised keys.
- **Validated lookups** (`JsonObjectConfigs.kt`). `getConfigString`,
  `getConfigInteger` and `getConfigLong` fail with `IllegalStateException`
  ("Missing config value for key: …") when the key is absent or null.
- **Configuration mapping** (`ConfiguredDbClient.kt`).
  - `appPropsToConfigData` reads six source keys in a fixed order and fails
    on the first one missing.
  - `configDataToJdbcPoolConfig` renames the six values into the pool's
    seven-key configuration.
- **The shared client** (`SharedDbClient.kt`). A class whose `instance` and
  `configData` fields are reassigned by `Init`. The pool is a class with an
  `open` flag that `Close` clears; a closed pool refuses connections with
  "Client is closed". `shared_db_client_scenarios.dfy` states what
  `SharedDbClientTest` checks, for every URL, user and password.
- **Path removal** (`util/CoroutineUtils.kt`). `withoutPath` splits a
  `/`-separated path, follows the parent segments through nested objects of
  a copy and removes the leaf key.

JSON objects are `map<string, JVal>` values wherever the code only reads
them or builds new ones. The client's stored configuration, and the copy its
`config` getter hands out, are `MutableJsonObject` heap objects, because the
tests change that copy in place with `put` and `remove`. `JVal` holds null, strings, 32-bit
integers, 64-bit longs and nested objects. Exceptions are the `Err` side of
a `Result` (`exceptions.dfy`). Kotlin bytes are modelled as `Octet` values
0..255: an `Octet` is the unsigned reading of the same eight bits.

The environment-style source keys `DATABASE_URL_ENV_KEY`,
`DATABASE_USERNAME_ENV_KEY` and `DATABASE_PASSWORD_ENV_KEY` are imported by
the source, but the file that defines them is not part of this model.
No Kotlin file at hand gives their values, so `configuration_keys.dfy`
assumes `DATABASE_URL`, `DATABASE_USERNAME` and `DATABASE_PASSWORD`. The
proofs use only these facts about them: they are pairwise
distinct, and they contain no '.' and no '/'.

The test sources hold a private copy of `toByteArray`
(`src/test/kotlin/io/github/u/ways/DataTypesHandlingScenariosTest.kt`, lines
321-326). It does the same `wrap`, `putLong`, `putLong` steps, so
`UuidUtils.ToByteArray` models it too.

## Model

| member | source | states |
|---|---|---|
| UuidUtils.ByteBuffer.Wrap | src/main/kotlin/io/github/u/ways/utils/UuidUtils.kt:8 | wrapping an array gives a buffer over that array at position 0 |
| UuidUtils.ByteBuffer.PutLong | src/main/kotlin/io/github/u/ways/utils/UuidUtils.kt:10-11 | with eight bytes left, the buffer becomes its old prefix, then the big-endian bytes of the long, then its old suffix, and the position advances by 8; with fewer left, it fails and nothing changes |
| UuidUtils.WriteLong | src/main/kotlin/io/github/u/ways/utils/UuidUtils.kt:10-11 | the loop that stores a long: the new array is the old one with the eight-byte window replaced by the long's big-endian bytes |
| UuidUtils.ToByteArray | src/main/kotlin/io/github/u/ways/utils/UuidUtils.kt:7-12 | returns a fresh array holding exactly the 16 bytes of the UUID: the encoded most significant half, then the encoded least significant half |
| UuidUtils.UuidBytesLayout | src/main/kotlin/io/github/u/ways/utils/UuidUtils.kt:7-12 | the result has 16 bytes; bytes 0..7 are the two's-complement big-endian form of the most significant bits and bytes 8..15 that of the least significant bits |
| UuidUtils.DecodeEncodeLong | src/main/kotlin/io/github/u/ways/utils/UuidUtils.kt:10 | reading the eight bytes back as a signed big-endian long gives the long that was written |
| UuidUtils.SignedOfResidue | src/main/kotlin/io/github/u/ways/utils/UuidUtils.kt:10 | reading a long's 64-bit pattern as two's complement gives the long back |
| UuidUtils.UuidBytesRoundTrip | src/main/kotlin/io/github/u/ways/utils/UuidUtils.kt:7-12 | decoding the 16 bytes as two longs gives back the UUID |
| UuidUtils.UuidBytesInjective | src/main/kotlin/io/github/u/ways/utils/UuidUtils.kt:7-12 | different UUIDs have different byte arrays |
| BigEndian.FromBytesOfBytes | src/main/kotlin/io/github/u/ways/utils/UuidUtils.kt:10-11 | the unsigned value of the n big-endian bytes of v is v mod 256^n, for negative v as well |
| UuidUtils.ToStringIsDashedDigits | src/main/kotlin/io/github/u/ways/utils/UuidUtils.kt:15 | the text form is the 32 hex digits of the two halves, grouped 8-4-4-4-12 with '-' between the groups |
| UuidUtils.UuidDigitGroups | src/main/kotlin/io/github/u/ways/utils/UuidUtils.kt:15 | each of the five shifted groups is a run of consecutive digits of the 32 |
| UuidUtils.ToStringShape | src/main/kotlin/io/github/u/ways/utils/UuidUtils.kt:15 | the text has 36 characters: '-' at offsets 8, 13, 18 and 23, and a lower-case hex digit everywhere else |
| UuidUtils.FromStringOfDashed | src/test/kotlin/io/github/u/ways/bugs/DataTypesHandlingScenariosTest.kt:90 | the parser reads any 8-4-4-4-12 layout of 32 digits, in either case: the first 16 digits give the most significant half and the last 16 the other |
| UuidUtils.SignedOfDigits | src/main/kotlin/io/github/u/ways/utils/UuidUtils.kt:15 | a long's 16 hex digits, read back as a two's-complement long, give the long |
| UuidUtils.ToStringRoundTrip | src/main/kotlin/io/github/u/ways/utils/UuidUtils.kt:15 | parsing the text form gives back the UUID |
| UuidUtils.AdaptToVertxBufferContents | src/main/kotlin/io/github/u/ways/utils/UuidUtils.kt:14-15 | the buffer holds 36 ASCII bytes: '-' at offsets 8, 13, 18 and 23, lower-case hex digits elsewhere; read back as text it parses to the UUID |
| BigEndian.NibblesOfBytes | src/test/kotlin/io/github/u/ways/bugs/DataTypesHandlingScenariosTest.kt:67-71 | splitting each byte of v's n-byte encoding into two hex digits gives v's 2n hex digits |
| RawToHexRegrouping.RawToHexOfUuidBytes | src/test/kotlin/io/github/u/ways/bugs/DataTypesHandlingScenariosTest.kt:67-77 | RAWTOHEX of the UUID's 16 bytes is its 32 digits in upper case |
| RawToHexRegrouping.RegroupIsDashed | src/test/kotlin/io/github/u/ways/bugs/DataTypesHandlingScenariosTest.kt:67-71 | the five SUBSTR calls (1,8 / 9,4 / 13,4 / 17,4 / 21 to the end) joined by '-' lay 32 hex characters out 8-4-4-4-12 |
| RawToHexRegrouping.LowerAsciiOfDashed | src/test/kotlin/io/github/u/ways/bugs/DataTypesHandlingScenariosTest.kt:59-90 | the upper-case and lower-case layouts of the same digits differ only in case |
| RawToHexRegrouping.RegroupedRawHexIsUuidText | src/test/kotlin/io/github/u/ways/bugs/DataTypesHandlingScenariosTest.kt:59-90 | the hex has 32 characters; the regrouped text is the UUID's text form apart from case, and it parses back to the UUID |
| PropertyKeys.DatabaseMaxPoolConnectionSize | src/main/kotlin/io/github/u/ways/config/PropertyKeys.kt:3-5 | the key is the application name followed by ".database.connection.max-pool-size" |
| PropertyKeys.DatabaseConnectionTimeoutMs | src/main/kotlin/io/github/u/ways/config/PropertyKeys.kt:3-6 | the key is the application name followed by ".database.connection.timeout-ms" |
| PropertyKeys.DatabaseConnectionInitScript | src/main/kotlin/io/github/u/ways/config/PropertyKeys.kt:3-7 | the key is the application name followed by ".database.connection.init-script" |
| PropertyKeys.KeysStartWithAppName | src/main/kotlin/io/github/u/ways/config/PropertyKeys.kt:3-7 | every key starts with the application name, with a '.' right after it |
| PropertyKeys.KeysPairwiseDistinct | src/main/kotlin/io/github/u/ways/config/PropertyKeys.kt:5-7 | for one name the three keys are different |
| PropertyKeys.BuildersInjective | src/main/kotlin/io/github/u/ways/config/PropertyKeys.kt:5-7 | each builder gives different keys for different names |
| PropertyKeys.SlashOnlyFromAppName | src/main/kotlin/io/github/u/ways/config/PropertyKeys.kt:3-7 | a key contains '/' exactly when the name does |
| PropertyKeys.EmptyAppName | src/main/kotlin/io/github/u/ways/config/PropertyKeys.kt:3 | nothing checks the name: the empty name gives the bare suffixes |
| PropertyKeys.TestAppTimeoutKey | src/main/kotlin/io/github/u/ways/config/PropertyKeys.kt:6 | the name "test" gives "test.database.connection.timeout-ms" |
| JsonObjectConfigs.CheckNotNull | src/main/kotlin/io/github/u/ways/config/JsonObjectConfigs.kt:6 | succeeds exactly when the key holds a non-null value, and then returns that value; otherwise fails with "Missing config value for key: " followed by the key |
| JsonObjectConfigs.GetConfigString | src/main/kotlin/io/github/u/ways/config/JsonObjectConfigs.kt:5-6 | succeeds exactly when the key holds a string, and then returns that string; absent or null gives the missing-value IllegalStateException |
| JsonObjectConfigs.GetConfigInteger | src/main/kotlin/io/github/u/ways/config/JsonObjectConfigs.kt:8-9 | the same contract for a 32-bit integer |
| JsonObjectConfigs.GetConfigLong | src/main/kotlin/io/github/u/ways/config/JsonObjectConfigs.kt:11-12 | the same contract for a 64-bit long |
| JsonObjectConfigs.GettersShareFailure | src/main/kotlin/io/github/u/ways/config/JsonObjectConfigs.kt:5-12 | a null entry fails like an absent one, and the three getters fail with the same error |
| ConfiguredDbClient.AppPropsToConfigData | src/main/kotlin/io/github/u/ways/ConfiguredDbClient.kt:29-38 | on success, each of the six normalised keys holds the value found under its source key |
| ConfiguredDbClient.MappingFailsAtFirstFailure | src/main/kotlin/io/github/u/ways/ConfiguredDbClient.kt:31-36 | the mapping fails exactly when some lookup fails, and then with the error of the first failing lookup in reading order |
| ConfiguredDbClient.FirstFailureNoneIffComplete | src/main/kotlin/io/github/u/ways/ConfiguredDbClient.kt:31-36 | no lookup fails exactly when every source key holds a value of the kind its getter reads |
| ConfiguredDbClient.FirstFailureAt | src/main/kotlin/io/github/u/ways/ConfiguredDbClient.kt:31-36 | when the lookups before the i-th succeed and the i-th fails, the failure is the i-th lookup's error |
| ConfiguredDbClient.ConfigDataKeys | src/main/kotlin/io/github/u/ways/ConfiguredDbClient.kt:29-38 | on success the result has exactly the six normalised keys |
| ConfiguredDbClient.SourceKeysDistinct | src/main/kotlin/io/github/u/ways/ConfiguredDbClient.kt:31-36 | for any application name the six source keys are pairwise distinct |
| ConfiguredDbClient.ErrorNamesFirstMissingKey | src/main/kotlin/io/github/u/ways/ConfiguredDbClient.kt:31-36 | if the earlier keys are readable and the i-th is absent or null, the error names the i-th key |
| ConfiguredDbClient.RemovingAnySourceKeyFails | src/main/kotlin/io/github/u/ways/ConfiguredDbClient.kt:31-36 | removing any source key from complete properties, or setting it to null, fails with the missing-value error for that key |
| ConfiguredDbClient.OnlySourceEntriesMatter | src/main/kotlin/io/github/u/ways/ConfiguredDbClient.kt:29-38 | properties that agree on the six source keys give the same result, so extra keys are ignored |
| ConfiguredDbClient.NoDefaultsOrRangeChecks | src/main/kotlin/io/github/u/ways/ConfiguredDbClient.kt:34-35 | any pool size and any timeout pass through unchanged |
| ConfiguredDbClient.ConfigDataToJdbcPoolConfig | src/main/kotlin/io/github/u/ways/ConfiguredDbClient.kt:40-50 | `provider_class` holds the HikariCP provider; the six pool keys hold the values read from the matching normalised keys, null when absent |
| ConfiguredDbClient.PoolConfigAgreesWithTypedReads | src/main/kotlin/io/github/u/ways/ConfiguredDbClient.kt:29-50 | on a configuration the mapping produced, the typed getter for each normalised key succeeds and yields exactly the entry the pool configuration copies |
| ConfiguredDbClient.PoolConfigKeys | src/main/kotlin/io/github/u/ways/ConfiguredDbClient.kt:40-50 | the pool configuration has exactly seven keys |
| ConfiguredDbClient.PoolConfigFromAppProps | src/main/kotlin/io/github/u/ways/ConfiguredDbClient.kt:29-50 | the two mappings together send each source value unchanged to its pool field |
| SharedDb.Pool.constructor | src/main/kotlin/io/github/u/ways/SharedDbClient.kt:18 | a new pool keeps its configuration and is open |
| SharedDb.Pool.GetConnection | src/test/kotlin/io/github/u/ways/SharedDbClientTest.kt:104-107 | an open pool hands out a connection; a closed one fails with "Client is closed" |
| SharedDb.Pool.Close | src/main/kotlin/io/github/u/ways/SharedDbClient.kt:22 | the pool is closed afterwards |
| SharedDb.SharedDbClient.constructor | src/main/kotlin/io/github/u/ways/SharedDbClient.kt:10-11 | at start-up there is no pool and the configuration is the empty object |
| SharedDb.SharedDbClient.GetPool | src/main/kotlin/io/github/u/ways/SharedDbClient.kt:13 | gives the held pool; before any successful `init`, reading the uninitialised `instance` fails |
| SharedDb.SharedDbClient.Config | src/main/kotlin/io/github/u/ways/SharedDbClient.kt:14 | returns a newly allocated object holding the stored entries; since it is not the stored object, changing it in place cannot change the client |
| Json.MutableJsonObject.Copy | src/main/kotlin/io/github/u/ways/SharedDbClient.kt:14 | `copy()` gives a newly allocated object with the same entries |
| Json.MutableJsonObject.Put | src/test/kotlin/io/github/u/ways/SharedDbClientTest.kt:93 | the entry is set in place and the receiver itself is returned |
| Json.MutableJsonObject.Remove | src/test/kotlin/io/github/u/ways/SharedDbClientTest.kt:94 | the entry is dropped in place and the value it held, or null, is returned |
| SharedDb.SharedDbClient.Init | src/main/kotlin/io/github/u/ways/SharedDbClient.kt:16-19 | on a mapping failure: the same error, and both fields unchanged. On success: the client itself, a new configuration object holding the mapped configuration, and a fresh open pool built from its pool configuration. A previously held pool is left open |
| SharedDb.SharedDbClient.Close | src/main/kotlin/io/github/u/ways/SharedDbClient.kt:21-23 | closes the held pool and keeps both fields; before any `init`, fails on the uninitialised `instance` |
| SharedDbClientScenarios.TestPropsMapToExpectedConfig | src/test/kotlin/io/github/u/ways/SharedDbClientTest.kt:78-85 | the test's properties map to exactly the expected six-key configuration |
| SharedDbClientScenarios.WithoutSourceKey | src/test/kotlin/io/github/u/ways/SharedDbClientTest.kt:59-74 | for a name without '/', `withoutPath` with any source key removes that top-level key |
| SharedDbClientScenarios.MissingConfigFails | src/test/kotlin/io/github/u/ways/SharedDbClientTest.kt:59-76 | dropping any one of the six source keys from the test properties makes the mapping fail with the missing-value error for that key |
| SharedDbClientScenarios.MissingConfigInitFails | src/test/kotlin/io/github/u/ways/SharedDbClientTest.kt:68-76 | through a newly created client: `init` fails with that error, and the configuration stays empty |
| SharedDbClientScenarios.ConfigIsAnUnmodifiableCopy | src/test/kotlin/io/github/u/ways/SharedDbClientTest.kt:87-97 | the exposed configuration is the expected one; `put` and `remove` applied in place to the handed-out object change it, and the configuration exposed next is still the expected one |
| SharedDbClientScenarios.CloseStopsTheDataSource | src/test/kotlin/io/github/u/ways/SharedDbClientTest.kt:99-109 | a connection is available after `init`; after `close`, acquiring one fails with "Client is closed" |
| CoroutineUtils.Split | src/test/kotlin/io/github/u/ways/util/CoroutineUtils.kt:9 | at least one segment, no segment contains '/', and joining the segments with '/' gives the path |
| CoroutineUtils.SplitJoin | src/test/kotlin/io/github/u/ways/util/CoroutineUtils.kt:9 | splitting segments joined by '/' gives the segments back |
| CoroutineUtils.NoSlashSplit | src/test/kotlin/io/github/u/ways/util/CoroutineUtils.kt:9 | a path without '/' is a single segment |
| CoroutineUtils.SplitHead | src/test/kotlin/io/github/u/ways/util/CoroutineUtils.kt:9 | a leading segment before the first '/' is split off as the first segment |
| CoroutineUtils.RemoveAt | src/test/kotlin/io/github/u/ways/util/CoroutineUtils.kt:10-11 | succeeds exactly when the parent segments lead to a nested object. Otherwise it fails with the error of the failed step. On success, that object loses the leaf key and the top-level keys stay as they were |
| CoroutineUtils.RemoveAtKeepsOthers | src/test/kotlin/io/github/u/ways/util/CoroutineUtils.kt:6-11 | the leaf is gone, and every value whose path neither leads to the leaf nor lies below it is unchanged |
| CoroutineUtils.WithoutJoinedPath | src/test/kotlin/io/github/u/ways/util/CoroutineUtils.kt:5-11 | a path of '/'-free segments joined by '/' removes the last segment's key from the object the other segments lead to |
| CoroutineUtils.WithoutPlainKey | src/test/kotlin/io/github/u/ways/util/CoroutineUtils.kt:5-11 | a path without '/' removes that top-level key and nothing else |
| CoroutineUtils.RemoveAbsentLeaf | src/test/kotlin/io/github/u/ways/util/CoroutineUtils.kt:6 | removing an absent leaf gives an object equal to the original |

## Left out

- JsonObjectConfigs.GetConfigString: Vert.x's coercions are not modelled. In the library, `getString` renders a number as text, and `getInteger`/`getLong` narrow or widen other numbers. The model reads only a value of the getter's own kind. Any other non-null value fails with a `ClassCast` error.
- JsonObjectConfigs.GetConfigInteger: the same restriction; a long value is not narrowed.
- JsonObjectConfigs.GetConfigLong: the same restriction; an integer value is not widened.
- ConfiguredDbClient.ConfigDataToJdbcPoolConfig: it copies each normalised entry as stored. The plain `getString`/`getInteger`/`getLong` of the source would instead render a value of another kind as text, or throw on a kind they cannot convert. Every configuration `Init` passes comes from `AppPropsToConfigData` and holds each value in its getter's kind, so the two agree there (`PoolConfigAgreesWithTypedReads`).
- CoroutineUtils.RemoveAt: `withoutPath` is modelled on values. The library's deep `copy()` followed by an in-place `remove` gives the same result as a functional update, and the receiver is never changed. Aliasing inside the copy is not modelled.
- UuidUtils.FromString: only the canonical 36-character layout of hex digits is parsed. The JDK's fallback parser also accepts shorter groups, and a '+' sign inside a group; for those the model returns `None`.
- UuidUtils.AdaptToVertxBuffer: the UTF-8 encoding is modelled for ASCII only. That covers every character of the text form.
- The `Vertx` parameter of `init`, pool creation inside `JDBCPool.pool`, and the asynchronous `close().await()` and `connection.await()`. The pool is a class with an `open` flag; a connection records only the pool it came from.
- `SharedDbClient` is a Kotlin `object`. The model has a class, and each scenario method creates its own client. The state the singleton carries from one test to the next is not modelled, so `MissingConfigInitFails`'s empty configuration holds for a newly created client only. Uniqueness of the singleton, and its sharing across verticles through `Shareable`, are not modelled either.
- Concurrency: the source has no locking, and the model is sequential.
- `connection/Query.kt`: thin wrappers over prepared-statement execution.
- The database scenario tests and their fixtures, `randomString` (random) and the environment reads in `DatabaseUtils.kt`. The scenarios take the URL, user and password as parameters. Only the `RAWTOHEX`/`SUBSTR` regrouping fact and the checks of `SharedDbClientTest` are modelled.
- The build files.
