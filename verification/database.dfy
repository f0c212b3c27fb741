/**
 * The module-level `DATABASE_URL` computation of the web application: the
 * environment value, or a local SQLite file when it is unset, pointed at the
 * psycopg 3 driver by the third copy of the rewrite.
 */
module Database {
  import opened Wrappers
  import opened PyStr
  import opened Migrate

  /** The URL used when `DATABASE_URL` is not set. */
  const DefaultDatabaseUrl: string := "sqlite:///./users.db"

  /**
   * `env` is the value of the `DATABASE_URL` environment variable (`None`
   * when unset; an empty value is still a value). The result is the URL the
   * engine is created with.
   */
  method ResolveDatabaseUrl(env: Option<string>) returns (url: string)
    ensures IsPgNormalization(env.GetOr(DefaultDatabaseUrl), url)
    ensures env.None? ==> url == DefaultDatabaseUrl
    ensures url == NormalizePgUrl(env.GetOr(DefaultDatabaseUrl))
  {
    url := env.GetOr(DefaultDatabaseUrl);
    assert !StartsWith(DefaultDatabaseUrl, PostgresScheme) by {
      assert DefaultDatabaseUrl[0] == 's' != PostgresScheme[0];
    }
    assert !StartsWith(DefaultDatabaseUrl, PostgresqlScheme) by {
      assert DefaultDatabaseUrl[0] == 's' != PostgresqlScheme[0];
    }
    if StartsWith(url, PostgresScheme) {
      ReplacePrefix(url, PostgresScheme, PsycopgScheme);
      url := ReplaceFirst(url, PostgresScheme, PsycopgScheme);
    } else if StartsWith(url, PostgresqlScheme) && !Contains(url, PsycopgMarker) {
      ReplacePrefix(url, PostgresqlScheme, PsycopgScheme);
      url := ReplaceFirst(url, PostgresqlScheme, PsycopgScheme);
    }
  }

  /** The default SQLite URL passes through the rewrite unchanged. */
  lemma DefaultUrlUnchanged()
    ensures NormalizePgUrl(DefaultDatabaseUrl) == DefaultDatabaseUrl
  {
    assert DefaultDatabaseUrl[0] == 's';
    NormalizeOtherSchemes(DefaultDatabaseUrl);
  }
}
