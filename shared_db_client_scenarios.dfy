/** The behaviour `SharedDbClientTest` relies on, stated for every database
    URL, user and password (the test reads those from the environment) and
    every application name without a '/'. */
module SharedDbClientScenarios {
  import opened Exceptions
  import opened Json
  import opened ConfigurationKeys
  import opened PropertyKeys
  import opened JsonObjectConfigs
  import opened ConfiguredDbClient
  import opened CoroutineUtils
  import opened SharedDb

  const MaxPoolSize: Int32 := 5
  const ConnectionTimeoutInMs: Int64 := 30000
  const ConnectionInitSql: string := "SELECT 1 FROM V$DATABASE WHERE OPEN_MODE = 'READ WRITE'"

  /** The application properties the test starts from. */
  function TestAppProps(appName: string, url: string, user: string, password: string): JsonObject
  {
    map[DatabaseUrlEnvKey := JString(url),
        DatabaseUsernameEnvKey := JString(user),
        DatabasePasswordEnvKey := JString(password),
        DatabaseMaxPoolConnectionSize(appName) := JInt(MaxPoolSize),
        DatabaseConnectionTimeoutMs(appName) := JLong(ConnectionTimeoutInMs),
        DatabaseConnectionInitScript(appName) := JString(ConnectionInitSql)]
  }

  /** The configuration the test expects the client to expose. */
  function ExpectedConfig(url: string, user: string, password: string): JsonObject
  {
    map[DatabaseUrlKey := JString(url),
        DatabaseUserKey := JString(user),
        DatabasePasswordKey := JString(password),
        DatabaseMaxPoolSizeKey := JInt(MaxPoolSize),
        DatabaseConnectionTimeoutInMsKey := JLong(ConnectionTimeoutInMs),
        DatabaseConnectionInitSqlKey := JString(ConnectionInitSql)]
  }

  /** The i-th source key of the test properties holds the i-th expected value. */
  lemma TestAppPropsEntries(appName: string, url: string, user: string, password: string)
    ensures var props := TestAppProps(appName, url, user, password);
      forall i :: 0 <= i < 6 ==>
        SourceKeys(appName)[i] in props &&
        props[SourceKeys(appName)[i]] == ExpectedConfig(url, user, password)[NormalisedKeys[i]]
  {
    SourceKeysDistinct(appName);
  }

  /** The expected configuration has exactly the six normalised keys. */
  lemma ExpectedConfigKeys(url: string, user: string, password: string)
    ensures ExpectedConfig(url, user, password).Keys == set k <- NormalisedKeys
  {
  }

  /** Two configurations with the six normalised keys that agree key by key
      are equal. */
  lemma SameNormalisedEntries(a: JsonObject, b: JsonObject)
    requires a.Keys == (set k <- NormalisedKeys) && b.Keys == a.Keys
    requires forall i :: 0 <= i < 6 ==> a[NormalisedKeys[i]] == b[NormalisedKeys[i]]
    ensures a == b
  {
    forall k | k in a.Keys ensures a[k] == b[k] {
      var i :| 0 <= i < 6 && NormalisedKeys[i] == k;
    }
  }

  /** Every lookup of the mapping succeeds on the test properties. */
  lemma TestPropsComplete(appName: string, url: string, user: string, password: string)
    ensures AppPropsToConfigData(TestAppProps(appName, url, user, password), appName).Ok?
  {
    var props, keys := TestAppProps(appName, url, user, password), SourceKeys(appName);
    SourceKeysDistinct(appName);
    assert props[keys[0]] == JString(url);
    assert props[keys[1]] == JString(user);
    assert props[keys[2]] == JString(password);
    assert props[keys[3]] == JInt(MaxPoolSize);
    assert props[keys[4]] == JLong(ConnectionTimeoutInMs);
    assert props[keys[5]] == JString(ConnectionInitSql);
    FirstFailureNoneIffComplete(props, appName, 0);
    MappingFailsAtFirstFailure(props, appName);
  }

  /** `exposeSharedDbClientConfigsAsAJsonObject`: the test properties map to
      exactly the expected configuration. */
  lemma TestPropsMapToExpectedConfig(appName: string, url: string, user: string, password: string)
    ensures AppPropsToConfigData(TestAppProps(appName, url, user, password), appName)
      == Ok(ExpectedConfig(url, user, password))
  {
    var props := TestAppProps(appName, url, user, password);
    TestPropsComplete(appName, url, user, password);
    TestAppPropsEntries(appName, url, user, password);
    ExpectedConfigKeys(url, user, password);
    ConfigDataKeys(props, appName);
    SameNormalisedEntries(AppPropsToConfigData(props, appName).value, ExpectedConfig(url, user, password));
  }

  /** The environment-style keys contain no '/'. */
  lemma NoSlashInEnvKeys()
    ensures '/' !in DatabaseUrlEnvKey && '/' !in DatabaseUsernameEnvKey && '/' !in DatabasePasswordEnvKey
  {
  }

  /** Removing one source key with `withoutPath` is a plain removal, since no
      source key contains a '/'. */
  lemma WithoutSourceKey(appName: string, obj: JsonObject, i: nat)
    requires '/' !in appName && i < 6
    ensures WithoutPath(obj, SourceKeys(appName)[i]) == Ok(obj - {SourceKeys(appName)[i]})
  {
    var key := SourceKeys(appName)[i];
    NoSlashInEnvKeys();
    SlashOnlyFromAppName(appName);
    assert i >= 3 ==> key == NamespacedKeys(appName)[i - 3];
    WithoutPlainKey(obj, key);
  }

  /** `failsWhenAppPropsHaveMissingDbConfigs`: dropping any one of the six
      source keys from the test properties makes the mapping fail with the
      "missing config value" error for that key. */
  lemma MissingConfigFails(appName: string, url: string, user: string, password: string, i: nat)
    requires '/' !in appName && i < 6
    ensures var key := SourceKeys(appName)[i];
      var props := TestAppProps(appName, url, user, password);
      && WithoutPath(props, key) == Ok(props - {key})
      && AppPropsToConfigData(props - {key}, appName) == Err(IllegalState(MissingMessage(key)))
  {
    var props := TestAppProps(appName, url, user, password);
    WithoutSourceKey(appName, props, i);
    TestPropsMapToExpectedConfig(appName, url, user, password);
    RemovingAnySourceKeyFails(props, appName, i);
  }

  /** The same test through a newly created client: `init` throws, and the
      client keeps its start-up state, so its configuration stays empty. */
  method MissingConfigInitFails(appName: string, url: string, user: string, password: string, i: nat)
    returns (r: Result<SharedDbClient>, config: JsonObject)
    requires '/' !in appName && i < 6
    ensures r == Err(IllegalState(MissingMessage(SourceKeys(appName)[i])))
    ensures config == map[]
  {
    var props := TestAppProps(appName, url, user, password);
    MissingConfigFails(appName, url, user, password, i);
    var withoutKey := WithoutPath(props, SourceKeys(appName)[i]);
    var client := new SharedDbClient();
    r := client.Init(appName, withoutKey.value);
    var copy := client.Config();
    config := copy.fields;
  }

  /** `exposeSharedDbClientConfigsAsAJsonObject` and
      `shouldNotAllowTheModificationOfAJsonObject`: after `init` the client
      exposes the expected configuration; `put` and `remove`, applied in place
      to the object it handed out, change that object and not what the client
      exposes next time. */
  method ConfigIsAnUnmodifiableCopy(appName: string, url: string, user: string, password: string)
    returns (exposed: JsonObject, modified: JsonObject, again: JsonObject)
    ensures exposed == ExpectedConfig(url, user, password)
    ensures modified == exposed[DatabaseUrlKey := JString("MODIFIED VALUE")] - {DatabasePasswordKey}
    ensures modified != exposed
    ensures again == ExpectedConfig(url, user, password)
  {
    var client := new SharedDbClient();
    TestPropsMapToExpectedConfig(appName, url, user, password);
    var r := client.Init(appName, TestAppProps(appName, url, user, password));
    var config := client.Config();
    exposed := config.fields;
    var chained := config.Put(DatabaseUrlKey, JString("MODIFIED VALUE"));
    var removed := chained.Remove(DatabasePasswordKey);
    modified := config.fields;
    assert DatabasePasswordKey !in modified;
    var second := client.Config();
    again := second.fields;
  }

  /** `shouldProvideAWayToCloseDataSource`: a connection can be acquired after
      `init`, and not after `close`, which fails with "Client is closed". */
  method CloseStopsTheDataSource(appName: string, url: string, user: string, password: string)
    returns (before: Result<Connection>, after: Result<Connection>)
    ensures before.Ok?
    ensures after == Err(PoolFailure(ClientClosedMessage))
  {
    var client := new SharedDbClient();
    TestPropsMapToExpectedConfig(appName, url, user, password);
    var r := client.Init(appName, TestAppProps(appName, url, user, password));
    var pool := client.GetPool();
    before := pool.value.GetConnection();
    var closed := client.Close();
    pool := client.GetPool();
    after := pool.value.GetConnection();
  }
}
