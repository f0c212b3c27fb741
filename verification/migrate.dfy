/**
 * The two pure helpers of the SQLite-to-PostgreSQL migration script:
 * `normalize_pg_url`, which points a PostgreSQL URL at the psycopg 3 driver,
 * and `chunked`, which splits the rows to copy into batches.
 */
module Migrate {
  import opened PyStr

  /** The scheme hosting providers hand out. */
  const PostgresScheme: string := "postgres://"
  /** SQLAlchemy's scheme for PostgreSQL with its default driver. */
  const PostgresqlScheme: string := "postgresql://"
  /** SQLAlchemy's scheme for PostgreSQL through psycopg 3. */
  const PsycopgScheme: string := "postgresql+psycopg://"
  /** The marker whose presence anywhere in the URL suppresses the second rewrite. */
  const PsycopgMarker: string := "+psycopg"

  /**
   * What every copy of the normalisation promises, stated with prefixes
   * instead of `replace`: a `postgres://` URL and a `postgresql://` URL
   * without the marker get the psycopg scheme in front of the same remainder;
   * every other URL is left as it is.
   */
  ghost predicate IsPgNormalization(url: string, r: string) {
    if StartsWith(url, PostgresScheme) then
      r == PsycopgScheme + url[|PostgresScheme|..]
    else if StartsWith(url, PostgresqlScheme) && !Contains(url, PsycopgMarker) then
      r == PsycopgScheme + url[|PostgresqlScheme|..]
    else
      r == url
  }

  /** `normalize_pg_url`: the if/elif form that reassigns `url`. */
  function NormalizePgUrl(url: string): (r: string)
    ensures IsPgNormalization(url, r)
    ensures !StartsWith(r, PostgresScheme)
  {
    if StartsWith(url, PostgresScheme) then
      ReplacePrefix(url, PostgresScheme, PsycopgScheme);
      NotPostgresAfterRewrite(url[|PostgresScheme|..]);
      ReplaceFirst(url, PostgresScheme, PsycopgScheme)
    else if StartsWith(url, PostgresqlScheme) && !Contains(url, PsycopgMarker) then
      ReplacePrefix(url, PostgresqlScheme, PsycopgScheme);
      NotPostgresAfterRewrite(url[|PostgresqlScheme|..]);
      ReplaceFirst(url, PostgresqlScheme, PsycopgScheme)
    else
      url
  }

  /** A psycopg URL starts with neither of the two rewritten schemes. */
  lemma NotPostgresAfterRewrite(rest: string)
    ensures !StartsWith(PsycopgScheme + rest, PostgresScheme)
    ensures !StartsWith(PsycopgScheme + rest, PostgresqlScheme)
  {
    var u := PsycopgScheme + rest;
    assert u[8] == 'q' != PostgresScheme[8];
    assert u[10] == '+' != PostgresqlScheme[10];
  }

  /** `postgres://` and `postgresql://` are mutually exclusive prefixes. */
  lemma SchemesExclusive(url: string)
    ensures !(StartsWith(url, PostgresScheme) && StartsWith(url, PostgresqlScheme))
  {
    if StartsWith(url, PostgresScheme) {
      assert url[8] == PostgresScheme[8] == ':';
    }
  }

  /** A `postgres://` URL gets the psycopg scheme, and its remainder is kept. */
  lemma NormalizePostgres(rest: string)
    ensures NormalizePgUrl(PostgresScheme + rest) == PsycopgScheme + rest
  {
    var u := PostgresScheme + rest;
    assert StartsWith(u, PostgresScheme);
    assert u[|PostgresScheme|..] == rest;
  }

  /** A `postgresql://` URL without the marker gets the psycopg scheme, and its remainder is kept. */
  lemma NormalizePostgresql(rest: string)
    requires !Contains(PostgresqlScheme + rest, PsycopgMarker)
    ensures NormalizePgUrl(PostgresqlScheme + rest) == PsycopgScheme + rest
  {
    var u := PostgresqlScheme + rest;
    assert StartsWith(u, PostgresqlScheme);
    SchemesExclusive(u);
    assert u[|PostgresqlScheme|..] == rest;
  }

  /** A `postgresql://` URL carrying the marker anywhere is left alone. */
  lemma NormalizeKeepsMarked(url: string)
    requires StartsWith(url, PostgresqlScheme) && Contains(url, PsycopgMarker)
    ensures NormalizePgUrl(url) == url
  {
    SchemesExclusive(url);
  }

  /** A URL with any other scheme (SQLite, MySQL, psycopg already) is left alone. */
  lemma NormalizeOtherSchemes(url: string)
    requires !StartsWith(url, PostgresScheme) && !StartsWith(url, PostgresqlScheme)
    ensures NormalizePgUrl(url) == url
  {
  }

  /** Normalising twice is normalising once. */
  lemma NormalizeIdempotent(url: string)
    ensures NormalizePgUrl(NormalizePgUrl(url)) == NormalizePgUrl(url)
  {
    var r := NormalizePgUrl(url);
    if r != url {
      var rest := if StartsWith(url, PostgresScheme) then url[|PostgresScheme|..] else url[|PostgresqlScheme|..];
      assert r == PsycopgScheme + rest;
      NotPostgresAfterRewrite(rest);
    }
  }

  /**
   * Only the scheme changes: the input and the output share a remainder, the
   * input's prefix is one of the two rewritten schemes or nothing, and the
   * output's prefix is the psycopg scheme or nothing.
   */
  lemma NormalizeOnlyScheme(url: string)
    ensures exists p, q, rest ::
      && url == p + rest && NormalizePgUrl(url) == q + rest
      && (p == q == [] || (p in {PostgresScheme, PostgresqlScheme} && q == PsycopgScheme))
  {
    var r := NormalizePgUrl(url);
    if StartsWith(url, PostgresScheme) {
      var rest := url[|PostgresScheme|..];
      assert url == PostgresScheme + rest;
      assert r == PsycopgScheme + rest;
    } else if StartsWith(url, PostgresqlScheme) && !Contains(url, PsycopgMarker) {
      var rest := url[|PostgresqlScheme|..];
      assert url == PostgresqlScheme + rest;
      assert r == PsycopgScheme + rest;
    } else {
      assert url == [] + url && r == [] + url;
    }
  }

  /**
   * The marker test never looks at the scheme: `postgresql://` holds no `+`,
   * so a `postgresql://` URL contains the marker exactly when the part after
   * the scheme does. In particular an existing `postgresql+psycopg://` URL is
   * not what the guard protects (it never starts with `postgresql://`).
   */
  lemma MarkerOnlyAfterScheme(url: string)
    requires StartsWith(url, PostgresqlScheme)
    ensures Contains(url, PsycopgMarker) <==> Contains(url[|PostgresqlScheme|..], PsycopgMarker)
  {
    var n := |PostgresqlScheme|;
    var tail := url[n..];
    if Contains(url, PsycopgMarker) {
      var i :| 0 <= i <= |url| && OccursAt(url, PsycopgMarker, i);
      assert url[i] == '+';
      assert i >= n;
      SliceOfSuffix(url, n, i - n, i - n + |PsycopgMarker|);
      assert OccursAt(tail, PsycopgMarker, i - n);
    }
    if Contains(tail, PsycopgMarker) {
      var j :| 0 <= j <= |tail| && OccursAt(tail, PsycopgMarker, j);
      SliceOfSuffix(url, n, j, j + |PsycopgMarker|);
      assert OccursAt(url, PsycopgMarker, j + n);
    }
  }

  /** The concatenation of a sequence of batches, in order. */
  function Flatten<T>(chunks: seq<seq<T>>): seq<T>
  {
    if chunks == [] then [] else Flatten(chunks[..|chunks| - 1]) + chunks[|chunks| - 1]
  }

  /**
   * The length every batch but the last has: `size` itself, or 1 when `size`
   * is zero or negative, since then the `len(buf) >= size` test fires after
   * every append.
   */
  function BatchLength(size: int): (k: nat)
    ensures k >= 1
  {
    if size >= 1 then size else 1
  }

  /**
   * `chunks` splits `xs` into batches of length `k`: their concatenation is
   * `xs`, none is empty, and only the last may be shorter than `k`.
   */
  ghost predicate IsBatching<T>(chunks: seq<seq<T>>, xs: seq<T>, k: nat) {
    && Flatten(chunks) == xs
    && (forall j :: 0 <= j < |chunks| ==> 1 <= |chunks[j]| <= k)
    && (forall j :: 0 <= j < |chunks| - 1 ==> |chunks[j]| == k)
  }

  /** A reference batching: the first `k` elements, then the batches of the rest. */
  function Batches<T>(xs: seq<T>, k: nat): seq<seq<T>>
    requires k >= 1
    decreases |xs|
  {
    if xs == [] then []
    else if |xs| <= k then [xs]
    else [xs[..k]] + Batches(xs[k..], k)
  }

  /** Flattening peels off the first batch. */
  lemma {:induction false} FlattenFront<T>(chunks: seq<seq<T>>)
    requires chunks != []
    ensures Flatten(chunks) == chunks[0] + Flatten(chunks[1..])
    decreases |chunks|
  {
    if |chunks| > 1 {
      var init := chunks[..|chunks| - 1];
      FlattenFront(init);
      assert init[0] == chunks[0];
      assert init[1..] == chunks[1..][..|chunks[1..]| - 1];
    } else {
      assert chunks[1..] == [];
      assert chunks[..|chunks| - 1] == [];
    }
  }

  /** The batching properties determine the batches: any batching of `xs` is `Batches(xs, k)`. */
  lemma {:induction false} BatchingUnique<T>(chunks: seq<seq<T>>, xs: seq<T>, k: nat)
    requires k >= 1
    requires IsBatching(chunks, xs, k)
    ensures chunks == Batches(xs, k)
    decreases |chunks|
  {
    if chunks != [] {
      FlattenFront(chunks);
      var rest := chunks[1..];
      if rest == [] {
        assert xs == chunks[0];
      } else {
        FlattenFront(rest);
        assert |chunks[0]| == k;
        assert |rest[0]| >= 1;
        assert xs[..k] == chunks[0] && xs[k..] == Flatten(rest);
        assert IsBatching(rest, xs[k..], k) by {
          forall j | 0 <= j < |rest| ensures 1 <= |rest[j]| <= k {
            assert rest[j] == chunks[j + 1];
          }
          forall j | 0 <= j < |rest| - 1 ensures |rest[j]| == k {
            assert rest[j] == chunks[j + 1];
          }
        }
        BatchingUnique(rest, xs[k..], k);
      }
    }
  }

  /** Integer division is determined by the quotient's bracket. */
  lemma DivBracket(n: int, q: int, k: int)
    requires k >= 1 && q * k <= n < q * k + k
    ensures n / k == q
  {
    var d := n / k;
    assert d * k <= n < d * k + k;
    if d < q {
      assert (q - d) * k >= k by { MulAtLeast(q - d, k); }
      assert false;
    } else if d > q {
      assert (d - q) * k >= k by { MulAtLeast(d - q, k); }
      assert false;
    }
  }

  lemma MulAtLeast(a: int, k: int)
    requires a >= 1 && k >= 1
    ensures a * k >= k
  {
  }

  /** `ceil(n / k)` for `n == c * k + b` with `0 <= b < k`. */
  lemma CeilDiv(c: nat, b: nat, k: nat)
    requires k >= 1 && b < k
    ensures (c * k + b + k - 1) / k == if b == 0 then c else c + 1
  {
    var q := if b == 0 then c else c + 1;
    assert q * k == c * k + (if b == 0 then 0 else k);
    DivBracket(c * k + b + k - 1, q, k);
  }

  /** Appending a batch appends its elements. */
  lemma FlattenSnoc<T>(chunks: seq<seq<T>>, c: seq<T>)
    ensures Flatten(chunks + [c]) == Flatten(chunks) + c
  {
    assert (chunks + [c])[..|chunks|] == chunks;
  }

  /**
   * `chunked(xs, size)`: collects elements into a buffer and emits it once
   * it holds at least `size` elements; a non-empty remainder is emitted last.
   */
  method Chunked<T>(xs: seq<T>, size: int) returns (chunks: seq<seq<T>>)
    ensures Flatten(chunks) == xs
    ensures forall j :: 0 <= j < |chunks| ==> chunks[j] != []
    ensures forall j :: 0 <= j < |chunks| - 1 ==> |chunks[j]| == BatchLength(size)
    ensures |chunks| > 0 ==> 1 <= |chunks[|chunks| - 1]| <= BatchLength(size)
    ensures |chunks| == (|xs| + BatchLength(size) - 1) / BatchLength(size)
    ensures chunks == Batches(xs, BatchLength(size))
  {
    var k := BatchLength(size);
    chunks := [];
    var buf: seq<T> := [];
    var i := 0;
    while i < |xs|
      invariant 0 <= i <= |xs|
      invariant Flatten(chunks) + buf == xs[..i]
      invariant forall j :: 0 <= j < |chunks| ==> |chunks[j]| == k
      invariant |buf| < k
      invariant |chunks| * k + |buf| == i
    {
      assert xs[..i + 1] == xs[..i] + [xs[i]];
      buf := buf + [xs[i]];
      if |buf| >= size {
        FlattenSnoc(chunks, buf);
        assert (|chunks| + 1) * k == |chunks| * k + k;
        chunks := chunks + [buf];
        buf := [];
      }
      i := i + 1;
    }
    assert xs[..i] == xs;
    CeilDiv(|chunks|, |buf|, k);
    if buf != [] {
      FlattenSnoc(chunks, buf);
      chunks := chunks + [buf];
    }
    BatchingUnique(chunks, xs, k);
  }
}
