/** `SharedDbClient`: the process-wide client holding the normalised
    configuration and the JDBC pool built from it. */
module SharedDb {
  import opened Exceptions
  import opened Json
  import opened ConfiguredDbClient

  /** The message the pool library fails with once closed. */
  const ClientClosedMessage: string := "Client is closed"

  /** A borrowed connection; what it can do is outside the model. */
  datatype Connection = Connection(pool: Pool)

  /** `JDBCPool`, abstracted to the configuration it was built from and
      whether it is still open. */
  class Pool {
    const config: JsonObject
    var open: bool

    /** `JDBCPool.pool(vertx, config)` */
    constructor (config: JsonObject)
      ensures this.config == config && open
    {
      this.config := config;
      open := true;
    }

    /** `pool.connection`: a connection while open, the "Client is closed"
        failure afterwards. */
    method GetConnection() returns (r: Result<Connection>)
      ensures r.Ok? <==> open
      ensures r.Ok? ==> r.value.pool == this
      ensures !open ==> r == Err(PoolFailure(ClientClosedMessage))
    {
      if open {
        r := Ok(Connection(this));
      } else {
        r := Err(PoolFailure(ClientClosedMessage));
      }
    }

    /** `pool.close()` */
    method Close()
      modifies this
      ensures !open
    {
      open := false;
    }
  }

  class SharedDbClient {
    /** `lateinit var instance`: null until the first successful `init`. */
    var instance: Pool?
    var configData: MutableJsonObject

    /** The object's state at start-up: no pool, an empty configuration. */
    constructor ()
      ensures instance == null && fresh(configData) && configData.fields == map[]
    {
      instance := null;
      configData := new MutableJsonObject(map[]);
    }

    /** The `config` getter: a new object with the stored entries. Since it is
        not `configData` itself, changing it cannot change the client. */
    method Config() returns (copy: MutableJsonObject)
      ensures fresh(copy) && copy.fields == configData.fields
    {
      copy := configData.Copy();
    }

    /** The `pool` getter: reading the `lateinit` field before `init` fails. */
    method GetPool() returns (r: Result<Pool>)
      ensures instance == null ==> r == Err(UninitializedProperty("instance"))
      ensures instance != null ==> r == Ok(instance)
    {
      if instance == null {
        r := Err(UninitializedProperty("instance"));
      } else {
        r := Ok(instance);
      }
    }

    /** `init(vertx, appName, appProps)`: map the properties, and only if that
        succeeds store the new configuration object and a fresh pool built
        from it. A failure
        leaves both fields as they were. A previous pool is replaced without
        being closed. On success the client itself is returned. */
    method Init(appName: string, appProps: JsonObject) returns (r: Result<SharedDbClient>)
      modifies this
      ensures AppPropsToConfigData(appProps, appName).Err? ==>
        && r == Err(AppPropsToConfigData(appProps, appName).error)
        && instance == old(instance) && configData == old(configData)
      ensures AppPropsToConfigData(appProps, appName).Ok? ==>
        && r == Ok(this)
        && fresh(configData) && configData.fields == AppPropsToConfigData(appProps, appName).value
        && instance != null && fresh(instance) && instance.open
        && instance.config == ConfigDataToJdbcPoolConfig(configData.fields)
      ensures old(instance) != null ==> old(instance).open == old(instance.open)
    {
      var data := AppPropsToConfigData(appProps, appName);
      if data.Err? {
        return Err(data.error);
      }
      configData := new MutableJsonObject(data.value);
      instance := new Pool(ConfigDataToJdbcPoolConfig(data.value));
      r := Ok(this);
    }

    /** `close()`: closes the held pool; before any `init` the `lateinit`
        read fails. The configuration and the pool reference stay. */
    method Close() returns (r: Result<()>)
      modifies instance
      ensures instance == old(instance) && configData == old(configData)
      ensures instance == null ==> r == Err(UninitializedProperty("instance"))
      ensures instance != null ==> r == Ok(()) && !instance.open
    {
      if instance == null {
        return Err(UninitializedProperty("instance"));
      }
      instance.Close();
      r := Ok(());
    }
  }
}
