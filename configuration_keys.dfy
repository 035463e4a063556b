/** The fixed key names of the configuration: the three environment-style
    source keys and the six normalised keys of the stored configuration. */
module ConfigurationKeys {

  // Environment-style source keys.
  const DatabaseUrlEnvKey: string := "DATABASE_URL"
  const DatabaseUsernameEnvKey: string := "DATABASE_USERNAME"
  const DatabasePasswordEnvKey: string := "DATABASE_PASSWORD"

  // Normalised keys.
  const DatabaseUrlKey: string := "database-url"
  const DatabaseUserKey: string := "database-user"
  const DatabasePasswordKey: string := "database-password"
  const DatabaseMaxPoolSizeKey: string := "database-max-pool-size"
  const DatabaseConnectionTimeoutInMsKey: string := "database-connection-timeout-in-ms"
  const DatabaseConnectionInitSqlKey: string := "database-connection-init-sql"
}
