/** The URL helper of the sequence-repair script. */
module FixSequences {
  import opened PyStr
  import opened Migrate

  /**
   * `norm`: the same rewrite as `normalize_pg_url`. The source writes it with
   * early returns instead of if/elif and reassignment; as a Dafny expression
   * both control flows are the same conditional, so the agreement lemma
   * below holds by unfolding.
   */
  function Norm(url: string): (r: string)
    ensures IsPgNormalization(url, r)
    ensures !StartsWith(r, PostgresScheme)
  {
    if StartsWith(url, PostgresScheme) then
      ReplacePrefix(url, PostgresScheme, PsycopgScheme);
      NotPostgresAfterRewrite(url[|PostgresScheme|..]);
      ReplaceFirst(url, PostgresScheme, PsycopgScheme)
    else if StartsWith(url, PostgresqlScheme) && !Contains(url, PsycopgMarker) then
      ReplacePrefix(url, PostgresqlScheme, PsycopgScheme);
      NotPostgresAfterRewrite(url[|PostgresqlScheme|..]);
      ReplaceFirst(url, PostgresqlScheme, PsycopgScheme)
    else
      url
  }

  /** The specification of the rewrite leaves no choice: it has one result per URL. */
  lemma PgNormalizationFunctional(url: string, r1: string, r2: string)
    requires IsPgNormalization(url, r1) && IsPgNormalization(url, r2)
    ensures r1 == r2
  {
  }

  /** `norm` and `normalize_pg_url` agree on every string. */
  lemma NormAgreesWithNormalizePgUrl(url: string)
    ensures Norm(url) == NormalizePgUrl(url)
  {
    PgNormalizationFunctional(url, Norm(url), NormalizePgUrl(url));
  }

  /** `norm` maps `postgres://` to the psycopg scheme, keeping the remainder. */
  lemma NormPostgres(rest: string)
    ensures Norm(PostgresScheme + rest) == PsycopgScheme + rest
  {
    NormAgreesWithNormalizePgUrl(PostgresScheme + rest);
    NormalizePostgres(rest);
  }

  /** `norm` maps `postgresql://` without the marker to the psycopg scheme, keeping the remainder. */
  lemma NormPostgresql(rest: string)
    requires !Contains(PostgresqlScheme + rest, PsycopgMarker)
    ensures Norm(PostgresqlScheme + rest) == PsycopgScheme + rest
  {
    NormAgreesWithNormalizePgUrl(PostgresqlScheme + rest);
    NormalizePostgresql(rest);
  }

  /** `norm` leaves a marked `postgresql://` URL, and any other scheme, unchanged. */
  lemma NormKeepsOthers(url: string)
    requires !StartsWith(url, PostgresScheme)
    requires !StartsWith(url, PostgresqlScheme) || Contains(url, PsycopgMarker)
    ensures Norm(url) == url
  {
  }

  /** `norm` is idempotent. */
  lemma NormIdempotent(url: string)
    ensures Norm(Norm(url)) == Norm(url)
  {
    NormAgreesWithNormalizePgUrl(url);
    NormAgreesWithNormalizePgUrl(Norm(url));
    NormalizeIdempotent(url);
  }
}
