/** The per-application key builders: each key is the application name
    followed by a fixed suffix under "database.connection". */
module PropertyKeys {

  const MaxPoolSizeSuffix: string := ".database.connection.max-pool-size"
  const TimeoutMsSuffix: string := ".database.connection.timeout-ms"
  const InitScriptSuffix: string := ".database.connection.init-script"

  /** `DATABASE_DETAILS` */
  function DatabaseDetails(appName: string): string
  {
    appName + ".database"
  }

  /** `DATABASE_MAX_POOL_CONNECTION_SIZE` */
  function DatabaseMaxPoolConnectionSize(appName: string): (key: string)
    ensures key == appName + MaxPoolSizeSuffix
  {
    DatabaseDetails(appName) + ".connection.max-pool-size"
  }

  /** `DATABASE_CONNECTION_TIMEOUT_MS` */
  function DatabaseConnectionTimeoutMs(appName: string): (key: string)
    ensures key == appName + TimeoutMsSuffix
  {
    DatabaseDetails(appName) + ".connection.timeout-ms"
  }

  /** `DATABASE_CONNECTION_INIT_SCRIPT` */
  function DatabaseConnectionInitScript(appName: string): (key: string)
    ensures key == appName + InitScriptSuffix
  {
    DatabaseDetails(appName) + ".connection.init-script"
  }

  /** The three builders, in the order the mapping reads them. */
  function NamespacedKeys(appName: string): seq<string>
  {
    [DatabaseMaxPoolConnectionSize(appName), DatabaseConnectionTimeoutMs(appName), DatabaseConnectionInitScript(appName)]
  }

  /** Every key starts with the application name and has a '.' right after it. */
  lemma KeysStartWithAppName(appName: string)
    ensures forall key <- NamespacedKeys(appName) ::
      |key| > |appName| && key[..|appName|] == appName && key[|appName|] == '.'
  {
    var keys := NamespacedKeys(appName);
    assert keys[0] == appName + MaxPoolSizeSuffix;
    assert keys[1] == appName + TimeoutMsSuffix;
    assert keys[2] == appName + InitScriptSuffix;
  }

  /** For one application name the three keys differ. */
  lemma KeysPairwiseDistinct(appName: string)
    ensures DatabaseMaxPoolConnectionSize(appName) != DatabaseConnectionTimeoutMs(appName)
    ensures DatabaseMaxPoolConnectionSize(appName) != DatabaseConnectionInitScript(appName)
    ensures DatabaseConnectionTimeoutMs(appName) != DatabaseConnectionInitScript(appName)
  {
    assert |MaxPoolSizeSuffix| == 34 && |TimeoutMsSuffix| == 31 && |InitScriptSuffix| == 32;
  }

  /** Each builder is injective: the suffix is fixed, so the name is the key
      without it. */
  lemma BuildersInjective(a: string, b: string)
    ensures DatabaseMaxPoolConnectionSize(a) == DatabaseMaxPoolConnectionSize(b) ==> a == b
    ensures DatabaseConnectionTimeoutMs(a) == DatabaseConnectionTimeoutMs(b) ==> a == b
    ensures DatabaseConnectionInitScript(a) == DatabaseConnectionInitScript(b) ==> a == b
  {
    if DatabaseMaxPoolConnectionSize(a) == DatabaseMaxPoolConnectionSize(b) {
      PrefixOfEqualConcatenations(a, b, MaxPoolSizeSuffix);
    }
    if DatabaseConnectionTimeoutMs(a) == DatabaseConnectionTimeoutMs(b) {
      PrefixOfEqualConcatenations(a, b, TimeoutMsSuffix);
    }
    if DatabaseConnectionInitScript(a) == DatabaseConnectionInitScript(b) {
      PrefixOfEqualConcatenations(a, b, InitScriptSuffix);
    }
  }

  lemma PrefixOfEqualConcatenations(a: string, b: string, suffix: string)
    requires a + suffix == b + suffix
    ensures a == b
  {
    assert |a| == |b|;
    assert a == (a + suffix)[..|a|];
    assert b == (b + suffix)[..|b|];
  }

  /** A key holds a '/' exactly when the application name does: the suffixes
      contain none, so path splitting on '/' leaves these keys whole. */
  lemma SlashOnlyFromAppName(appName: string)
    ensures forall key <- NamespacedKeys(appName) :: '/' in key <==> '/' in appName
  {
    NoSlashInSuffixes();
    SlashInConcatenation(appName, MaxPoolSizeSuffix);
    SlashInConcatenation(appName, TimeoutMsSuffix);
    SlashInConcatenation(appName, InitScriptSuffix);
    assert NamespacedKeys(appName) == [appName + MaxPoolSizeSuffix, appName + TimeoutMsSuffix, appName + InitScriptSuffix];
  }

  /** None of the three suffixes holds a '/'. */
  lemma NoSlashInSuffixes()
    ensures '/' !in MaxPoolSizeSuffix && '/' !in TimeoutMsSuffix && '/' !in InitScriptSuffix
  {
  }

  /** Appending text without a '/' adds none. */
  lemma SlashInConcatenation(a: string, b: string)
    requires '/' !in b
    ensures '/' in a + b <==> '/' in a
  {
    if '/' in a + b {
      var i :| 0 <= i < |a + b| && (a + b)[i] == '/';
      if i >= |a| {
        assert b[i - |a|] == '/';
      }
    }
  }

  /** Nothing validates the name: the empty name gives the bare suffixes. */
  lemma EmptyAppName()
    ensures DatabaseMaxPoolConnectionSize("") == ".database.connection.max-pool-size"
    ensures DatabaseConnectionTimeoutMs("") == ".database.connection.timeout-ms"
    ensures DatabaseConnectionInitScript("") == ".database.connection.init-script"
  {
  }

  /** The timeout key the test suite builds for the application "test". */
  lemma TestAppTimeoutKey()
    ensures DatabaseConnectionTimeoutMs("test") == "test.database.connection.timeout-ms"
  {
  }
}
