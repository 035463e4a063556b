/** `ConfiguredDbClient`: turning application properties into the normalised
    configuration, and that into the JDBC pool configuration. */
module ConfiguredDbClient {
  import opened Exceptions
  import opened Json
  import opened ConfigurationKeys
  import opened PropertyKeys
  import opened JsonObjectConfigs

  const HikariCpProvider: string := "io.vertx.ext.jdbc.spi.impl.HikariCPDataSourceProvider"

  datatype Kind = StringKind | IntegerKind | LongKind

  /** The six source keys, in the order `appPropsToConfigData` reads them. */
  function SourceKeys(appName: string): (keys: seq<string>)
    ensures |keys| == 6
  {
    [DatabaseUrlEnvKey, DatabaseUsernameEnvKey, DatabasePasswordEnvKey,
     DatabaseMaxPoolConnectionSize(appName), DatabaseConnectionTimeoutMs(appName),
     DatabaseConnectionInitScript(appName)]
  }

  /** The getter used for each source key. */
  const SourceKinds: seq<Kind> := [StringKind, StringKind, StringKind, IntegerKind, LongKind, StringKind]

  /** The normalised key each source value is stored under. */
  const NormalisedKeys: seq<string> :=
    [DatabaseUrlKey, DatabaseUserKey, DatabasePasswordKey, DatabaseMaxPoolSizeKey,
     DatabaseConnectionTimeoutInMsKey, DatabaseConnectionInitSqlKey]

  /** The value a getter of kind `kind` reads, as a JSON value. */
  function Read(obj: JsonObject, key: string, kind: Kind): Result<JVal>
  {
    match kind
    case StringKind => var s :- GetConfigString(obj, key); Ok(JString(s))
    case IntegerKind => var n :- GetConfigInteger(obj, key); Ok(JInt(n))
    case LongKind => var n :- GetConfigLong(obj, key); Ok(JLong(n))
  }

  /** Every source key is present and non-null with the kind its getter reads. */
  predicate Complete(appProps: JsonObject, appName: string)
  {
    forall i :: 0 <= i < 6 ==> Read(appProps, SourceKeys(appName)[i], SourceKinds[i]).Ok?
  }

  /** Reference definition of the failure: the error of the first source key,
      in reading order from `i`, whose getter fails. */
  function FirstFailure(appProps: JsonObject, appName: string, i: nat): Option<Exception>
    requires i <= 6
    decreases 6 - i
  {
    if i == 6 then None
    else
      var r := Read(appProps, SourceKeys(appName)[i], SourceKinds[i]);
      if r.Err? then Some(r.error) else FirstFailure(appProps, appName, i + 1)
  }

  /** No getter fails exactly when every source key is readable. */
  lemma {:induction false} FirstFailureNoneIffComplete(appProps: JsonObject, appName: string, i: nat)
    requires i <= 6
    ensures FirstFailure(appProps, appName, i) == None
        <==> forall j :: i <= j < 6 ==> Read(appProps, SourceKeys(appName)[j], SourceKinds[j]).Ok?
    decreases 6 - i
  {
    if i < 6 {
      FirstFailureNoneIffComplete(appProps, appName, i + 1);
    }
  }

  /** `appPropsToConfigData`: the six lookups in order, failing on the first
      missing one; on success exactly the six normalised keys, each holding the
      value found under its source key. */
  function AppPropsToConfigData(appProps: JsonObject, appName: string): (r: Result<JsonObject>)
    ensures r.Ok? ==> forall i :: 0 <= i < 6 ==>
      && SourceKeys(appName)[i] in appProps && NormalisedKeys[i] in r.value
      && r.value[NormalisedKeys[i]] == appProps[SourceKeys(appName)[i]]
  {
    var url :- GetConfigString(appProps, DatabaseUrlEnvKey);
    var user :- GetConfigString(appProps, DatabaseUsernameEnvKey);
    var password :- GetConfigString(appProps, DatabasePasswordEnvKey);
    var maxPoolSize :- GetConfigInteger(appProps, DatabaseMaxPoolConnectionSize(appName));
    var timeout :- GetConfigLong(appProps, DatabaseConnectionTimeoutMs(appName));
    var initSql :- GetConfigString(appProps, DatabaseConnectionInitScript(appName));
    Ok(map[
      DatabaseUrlKey := JString(url),
      DatabaseUserKey := JString(user),
      DatabasePasswordKey := JString(password),
      DatabaseMaxPoolSizeKey := JInt(maxPoolSize),
      DatabaseConnectionTimeoutInMsKey := JLong(timeout),
      DatabaseConnectionInitSqlKey := JString(initSql)
    ])
  }

  /** `configDataToJdbcPoolConfig`: the provider class and the six normalised
      values under the pool's own names; the plain getters read an absent key
      as null. */
  function ConfigDataToJdbcPoolConfig(configData: JsonObject): (pool: JsonObject)
    ensures "provider_class" in pool && pool["provider_class"] == JString(HikariCpProvider)
    ensures forall i :: 0 <= i < 6 ==> PoolKeys[i] in pool && pool[PoolKeys[i]] == Get(configData, NormalisedKeys[i])
  {
    map[
      "provider_class" := JString(HikariCpProvider),
      "jdbcUrl" := Get(configData, DatabaseUrlKey),
      "username" := Get(configData, DatabaseUserKey),
      "password" := Get(configData, DatabasePasswordKey),
      "maximumPoolSize" := Get(configData, DatabaseMaxPoolSizeKey),
      "connectionTimeout" := Get(configData, DatabaseConnectionTimeoutInMsKey),
      "connectionInitSql" := Get(configData, DatabaseConnectionInitSqlKey)
    ]
  }

  /** The mapping fails exactly when some lookup fails, and then with the
      error of the first lookup, in reading order, that fails. */
  lemma MappingFailsAtFirstFailure(appProps: JsonObject, appName: string)
    ensures AppPropsToConfigData(appProps, appName).Ok? <==> FirstFailure(appProps, appName, 0) == None
    ensures AppPropsToConfigData(appProps, appName).Err? ==>
      FirstFailure(appProps, appName, 0) == Some(AppPropsToConfigData(appProps, appName).error)
  {
  }

  /** On success the configuration holds the six normalised keys and no other. */
  lemma ConfigDataKeys(appProps: JsonObject, appName: string)
    requires AppPropsToConfigData(appProps, appName).Ok?
    ensures AppPropsToConfigData(appProps, appName).value.Keys == set k <- NormalisedKeys
  {
  }

  /** The pool configuration holds the provider class and the six pool
      settings, and no other key. */
  lemma PoolConfigKeys(configData: JsonObject)
    ensures ConfigDataToJdbcPoolConfig(configData).Keys
         == {"provider_class", "jdbcUrl", "username", "password", "maximumPoolSize", "connectionTimeout", "connectionInitSql"}
  {
  }

  /** On a configuration the mapping produced, each normalised key holds a
      value of the kind its source getter read, so the typed getter of that
      kind succeeds on it and yields exactly the entry the pool configuration
      copies. */
  lemma PoolConfigAgreesWithTypedReads(appProps: JsonObject, appName: string, i: nat)
    requires AppPropsToConfigData(appProps, appName).Ok? && i < 6
    ensures var data := AppPropsToConfigData(appProps, appName).value;
      Read(data, NormalisedKeys[i], SourceKinds[i]) == Ok(ConfigDataToJdbcPoolConfig(data)[PoolKeys[i]])
  {
    var data := AppPropsToConfigData(appProps, appName).value;
    MappingFailsAtFirstFailure(appProps, appName);
    FirstFailureNoneIffComplete(appProps, appName, 0);
    assert Read(appProps, SourceKeys(appName)[i], SourceKinds[i]).Ok?;
    assert data[NormalisedKeys[i]] == appProps[SourceKeys(appName)[i]];
  }

  /** The pool's name for each normalised key, in the same order. */
  const PoolKeys: seq<string> :=
    ["jdbcUrl", "username", "password", "maximumPoolSize", "connectionTimeout", "connectionInitSql"]

  // ---------------------------------------------------------------------------
  // Properties of the mapping.

  /** For any application name the six source keys are pairwise distinct: the
      environment-style keys hold no '.', the namespaced ones hold one right
      after the name. */
  lemma SourceKeysDistinct(appName: string)
    ensures forall i, j :: 0 <= i < j < 6 ==> SourceKeys(appName)[i] != SourceKeys(appName)[j]
  {
    var keys := SourceKeys(appName);
    KeysPairwiseDistinct(appName);
    EnvKeysDistinct();
    NoDotInEnvKeys();
    EnvKeyIsNotNamespaced(appName, DatabaseUrlEnvKey);
    EnvKeyIsNotNamespaced(appName, DatabaseUsernameEnvKey);
    EnvKeyIsNotNamespaced(appName, DatabasePasswordEnvKey);
    assert keys[3..] == NamespacedKeys(appName);
  }

  lemma EnvKeysDistinct()
    ensures DatabaseUrlEnvKey != DatabaseUsernameEnvKey
    ensures DatabaseUrlEnvKey != DatabasePasswordEnvKey
    ensures DatabaseUsernameEnvKey != DatabasePasswordEnvKey
  {
    assert |DatabaseUrlEnvKey| == 12 && |DatabaseUsernameEnvKey| == 17 && |DatabasePasswordEnvKey| == 17;
    assert DatabaseUsernameEnvKey[9] == 'U' && DatabasePasswordEnvKey[9] == 'P';
  }

  /** A key without '.' is none of the namespaced keys, which all hold a '.'
      right after the application name. */
  lemma EnvKeyIsNotNamespaced(appName: string, key: string)
    requires '.' !in key
    ensures key !in NamespacedKeys(appName)
  {
    KeysStartWithAppName(appName);
  }

  lemma NoDotInEnvKeys()
    ensures '.' !in DatabaseUrlEnvKey && '.' !in DatabaseUsernameEnvKey && '.' !in DatabasePasswordEnvKey
  {
  }

  /** When the getters for the first `i` source keys succeed and the `i`-th
      fails, that failure is the mapping's. */
  lemma {:induction false} FirstFailureAt(appProps: JsonObject, appName: string, from: nat, i: nat)
    requires from <= i < 6
    requires forall j :: from <= j < i ==> Read(appProps, SourceKeys(appName)[j], SourceKinds[j]).Ok?
    requires Read(appProps, SourceKeys(appName)[i], SourceKinds[i]).Err?
    ensures FirstFailure(appProps, appName, from) == Some(Read(appProps, SourceKeys(appName)[i], SourceKinds[i]).error)
    decreases i - from
  {
    if from < i {
      FirstFailureAt(appProps, appName, from + 1, i);
    }
  }

  /** Lookups run in reading order: when every source key before the `i`-th
      is readable and the `i`-th is absent or null, the mapping fails with the
      message naming the `i`-th key. */
  lemma ErrorNamesFirstMissingKey(appProps: JsonObject, appName: string, i: nat)
    requires i < 6
    requires forall j :: 0 <= j < i ==> Read(appProps, SourceKeys(appName)[j], SourceKinds[j]).Ok?
    requires !Present(appProps, SourceKeys(appName)[i])
    ensures AppPropsToConfigData(appProps, appName)
         == Err(IllegalState(MissingMessage(SourceKeys(appName)[i])))
  {
    FirstFailureAt(appProps, appName, 0, i);
    MappingFailsAtFirstFailure(appProps, appName);
  }

  /** Removing any one source key from complete properties, or setting it to
      null, makes the mapping fail naming that key. */
  lemma RemovingAnySourceKeyFails(appProps: JsonObject, appName: string, i: nat)
    requires i < 6
    requires AppPropsToConfigData(appProps, appName).Ok?
    ensures var key := SourceKeys(appName)[i];
      && AppPropsToConfigData(appProps - {key}, appName) == Err(IllegalState(MissingMessage(key)))
      && AppPropsToConfigData(appProps[key := JNull], appName) == Err(IllegalState(MissingMessage(key)))
  {
    var key := SourceKeys(appName)[i];
    MappingFailsAtFirstFailure(appProps, appName);
    FirstFailureNoneIffComplete(appProps, appName, 0);
    SourceKeysDistinct(appName);
    EarlierKeysStillReadable(appProps, appProps - {key}, appName, i);
    EarlierKeysStillReadable(appProps, appProps[key := JNull], appName, i);
    ErrorNamesFirstMissingKey(appProps - {key}, appName, i);
    ErrorNamesFirstMissingKey(appProps[key := JNull], appName, i);
  }

  /** Changing only the entry of the `i`-th source key leaves the earlier
      lookups as they were. */
  lemma EarlierKeysStillReadable(p: JsonObject, q: JsonObject, appName: string, i: nat)
    requires i < 6
    requires forall j :: 0 <= j < 6 ==> Read(p, SourceKeys(appName)[j], SourceKinds[j]).Ok?
    requires forall j :: 0 <= j < i ==> SourceKeys(appName)[j] != SourceKeys(appName)[i]
    requires forall k :: k != SourceKeys(appName)[i] ==> Get(p, k) == Get(q, k)
    ensures forall j :: 0 <= j < i ==> Read(q, SourceKeys(appName)[j], SourceKinds[j]).Ok?
  {
    var keys := SourceKeys(appName);
    forall j | 0 <= j < i
      ensures Read(q, keys[j], SourceKinds[j]).Ok?
    {
      assert Get(p, keys[j]) == Get(q, keys[j]);
    }
  }

  /** The result depends only on the entries under the six source keys; any
      other entries are ignored. */
  lemma OnlySourceEntriesMatter(p: JsonObject, q: JsonObject, appName: string)
    requires forall key <- SourceKeys(appName) :: Get(p, key) == Get(q, key)
    ensures AppPropsToConfigData(p, appName) == AppPropsToConfigData(q, appName)
  {
    var keys := SourceKeys(appName);
    GettersReadOneEntry(p, q, keys[0]);
    GettersReadOneEntry(p, q, keys[1]);
    GettersReadOneEntry(p, q, keys[2]);
    GettersReadOneEntry(p, q, keys[3]);
    GettersReadOneEntry(p, q, keys[4]);
    GettersReadOneEntry(p, q, keys[5]);
  }

  /** A getter sees only the entry under its key. */
  lemma GettersReadOneEntry(p: JsonObject, q: JsonObject, key: string)
    requires Get(p, key) == Get(q, key)
    ensures GetConfigString(p, key) == GetConfigString(q, key)
    ensures GetConfigInteger(p, key) == GetConfigInteger(q, key)
    ensures GetConfigLong(p, key) == GetConfigLong(q, key)
  {
  }

  /** No default and no range check: any pool size and any timeout are passed
      through unchanged. */
  lemma NoDefaultsOrRangeChecks(appProps: JsonObject, appName: string, size: Int32, timeout: Int64)
    requires AppPropsToConfigData(appProps, appName).Ok?
    ensures var props := appProps[DatabaseMaxPoolConnectionSize(appName) := JInt(size)]
                                 [DatabaseConnectionTimeoutMs(appName) := JLong(timeout)];
      && AppPropsToConfigData(props, appName).Ok?
      && AppPropsToConfigData(props, appName).value[DatabaseMaxPoolSizeKey] == JInt(size)
      && AppPropsToConfigData(props, appName).value[DatabaseConnectionTimeoutInMsKey] == JLong(timeout)
  {
    var props := appProps[DatabaseMaxPoolConnectionSize(appName) := JInt(size)]
                         [DatabaseConnectionTimeoutMs(appName) := JLong(timeout)];
    FirstFailureNoneIffComplete(appProps, appName, 0);
    NumbersReplacedStillReadable(appProps, props, appName, size, timeout);
    FirstFailureNoneIffComplete(props, appName, 0);
    var data := AppPropsToConfigData(props, appName).value;
    assert data[NormalisedKeys[3]] == props[SourceKeys(appName)[3]];
    assert data[NormalisedKeys[4]] == props[SourceKeys(appName)[4]];
  }

  lemma NumbersReplacedStillReadable(p: JsonObject, q: JsonObject, appName: string, size: Int32, timeout: Int64)
    requires forall j :: 0 <= j < 6 ==> Read(p, SourceKeys(appName)[j], SourceKinds[j]).Ok?
    requires q == p[DatabaseMaxPoolConnectionSize(appName) := JInt(size)][DatabaseConnectionTimeoutMs(appName) := JLong(timeout)]
    ensures forall j :: 0 <= j < 6 ==> Read(q, SourceKeys(appName)[j], SourceKinds[j]).Ok?
  {
    var keys := SourceKeys(appName);
    SourceKeysDistinct(appName);
    forall j | 0 <= j < 6
      ensures Read(q, keys[j], SourceKinds[j]).Ok?
    {
      if j != 3 && j != 4 {
        assert Get(p, keys[j]) == Get(q, keys[j]);
      }
    }
  }

  /** Composing the two mappings sends each source value, unchanged, to its
      pool configuration field. */
  lemma PoolConfigFromAppProps(appProps: JsonObject, appName: string)
    requires AppPropsToConfigData(appProps, appName).Ok?
    ensures var pool := ConfigDataToJdbcPoolConfig(AppPropsToConfigData(appProps, appName).value);
      && pool["provider_class"] == JString(HikariCpProvider)
      && forall i :: 0 <= i < 6 ==> pool[PoolKeys[i]] == appProps[SourceKeys(appName)[i]]
  {
    var data := AppPropsToConfigData(appProps, appName).value;
    var pool := ConfigDataToJdbcPoolConfig(data);
    forall i | 0 <= i < 6
      ensures pool[PoolKeys[i]] == appProps[SourceKeys(appName)[i]]
    {
      assert NormalisedKeys[i] in data;
      assert pool[PoolKeys[i]] == data[NormalisedKeys[i]];
    }
  }
}
