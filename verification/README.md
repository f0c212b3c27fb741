# Verified model of the ToraxView backend's pure logic

The ToraxView backend serves chest X-ray triage. It authenticates radiologists and
administrators, stores study records, and runs a 13-class multi-label classifier.
This project models in Dafny the parts of it that compute on plain values without
touching a database, an image library or a neural network, and proves what they
guarantee:

1. **PostgreSQL URL normalisation.** A URL handed out as `postgres://…`, or as
   `postgresql://…` without `+psycopg`, is rewritten to `postgresql+psycopg://…` so that
   SQLAlchemy uses the psycopg 3 driver. Every other URL is left alone. The same rewrite
   appears three times: `normalize_pg_url` in the migration script, `norm` in the
   sequence-repair script, and inline at module level in `database.py`. The model has
   one member per copy, and lemmas show that the three agree.
2. **`chunked` batching.** The migration script copies rows in batches. `chunked`
   fills a buffer and emits it once it holds at least `size` elements. Any non-empty
   remainder is emitted last.
3. **The tail of `predict`.** Each output probability is paired with the class label
   at the same index. The pairs are sorted stably by descending probability, and
   their mean becomes the `precision` score.

Modules:

- `Wrappers` (wrappers.dfy): `Option` and `Result`.
- `PyStr` (pystr.dfy): the Python string built-ins that the rewrite uses.
  - `startswith` is `StartsWith`.
  - `in` is `Contains`.
  - `replace(p, q, 1)` is `ReplaceFirst`. It replaces the leftmost occurrence of `p`
    wherever that occurrence is, as Python does.
  - `Find` is the leftmost-occurrence search that `ReplaceFirst` is built on. It
    matches Python's `str.find`, which the rewrite itself never calls.
- `Migrate` (migrate.dfy): `NormalizePgUrl` and `Chunked`.
  - `IsPgNormalization` is an independent, prefix-based statement of the rewrite.
  - `Batches` is a reference batching function.
- `FixSequences` (fix_sequences.dfy): `Norm`, the early-return copy.
- `Database` (database.py's rewrite, in database.dfy): `ResolveDatabaseUrl`.
  - It is a method that reassigns `url`, as the module-level code does.
  - Its input is the value of the `DATABASE_URL` environment variable, as an `Option`.
- `Ranking` (ranking.dfy): the prediction item type and the stable descending sort.
  - `SortDesc` is an insertion sort.
  - It is specified by `IsStableDescSort`: the result is a permutation of the input,
    it is sorted, and every group of equal probability keeps its input order.
- `Prediction` (prediction.dfy): the label table, `idx_to_class`, the pairing, the
  mean, and `Predict`.

Probabilities are Dafny `real`s. `precision` is an `Option<real>`, in which `None`
stands for the `nan` that `np.mean` returns for an empty array. If there are more
probabilities than labels, `CLASSES[i]` raises `IndexError` before any list exists.
The model returns `Failure(IndexError)` in that case.

Notes on the code as written:

- The guard `"+psycopg" not in url` never concerns the scheme.
  - A `postgresql://` URL cannot start with `postgresql+psycopg://`.
  - `Migrate.MarkerOnlyAfterScheme` proves that the guard only sees the part after
    `postgresql://`.
  - So a URL such as `postgresql://app:pw+psycopg@db/x` keeps SQLAlchemy's default
    driver.
  - The model keeps this behaviour exactly as written.
- `load_model_and_transform` builds the network with `build_model(NUM_CLASSES)`
  (model/utils.py:51), so `predict` normally receives 13 probabilities. `predict`
  (model/utils.py:84) never checks the length: it pairs whatever probability vector it
  is given. With fewer than 13
  probabilities, the list is shorter. The model follows the code, and
  `Prediction.PredictLabelsOnce` states the 13-entry guarantee for a vector of length 13.

## Model

| member | source | states |
|---|---|---|
| `PyStr.ReplacePrefix` | migrate_sqlite_to_postgres.py:23-24 | when the string starts with the pattern, `replace(pattern, rep, 1)` puts `rep` in front of the unchanged remainder, because the leftmost occurrence is the prefix |
| `PyStr.ReplaceFirstOccurrence` | migrate_sqlite_to_postgres.py:24 | `replace(p, q, 1)` on a string containing `p` replaces exactly the leftmost occurrence and keeps everything before and after it |
| `Migrate.NormalizePgUrl` | migrate_sqlite_to_postgres.py:22-27 | the result is the prefix-based normalisation of the input (psycopg scheme plus the same remainder for `postgres://` or an unmarked `postgresql://`, the input otherwise), and it never starts with `postgres://` |
| `Migrate.NormalizePostgres` | migrate_sqlite_to_postgres.py:23-24 | `"postgres://" + r` becomes `"postgresql+psycopg://" + r` for every `r` |
| `Migrate.NormalizePostgresql` | migrate_sqlite_to_postgres.py:25-26 | `"postgresql://" + r` without `+psycopg` anywhere becomes `"postgresql+psycopg://" + r` |
| `Migrate.NormalizeKeepsMarked` | migrate_sqlite_to_postgres.py:25-27 | a `postgresql://` URL that contains `+psycopg` anywhere is returned unchanged |
| `Migrate.NormalizeOtherSchemes` | migrate_sqlite_to_postgres.py:23-27 | a URL starting with neither `postgres://` nor `postgresql://` is returned unchanged |
| `Migrate.NormalizeIdempotent` | migrate_sqlite_to_postgres.py:22-27 | normalising an already normalised URL changes nothing |
| `Migrate.NormalizeOnlyScheme` | migrate_sqlite_to_postgres.py:22-27 | input and output share a remainder: only a `postgres://` or `postgresql://` prefix is swapped for `postgresql+psycopg://`, or nothing changes |
| `Migrate.MarkerOnlyAfterScheme` | migrate_sqlite_to_postgres.py:25 | for a `postgresql://` URL, `+psycopg in url` holds exactly when the part after the scheme contains `+psycopg` |
| `Migrate.Chunked` | migrate_sqlite_to_postgres.py:69-77 | the batches concatenate to the input, none is empty, all but the last have length `size` (1 when `size <= 0`), the last has 1 to that many elements, there are ceil(len/size) of them, and the result equals the reference batching |
| `Migrate.BatchingUnique` | migrate_sqlite_to_postgres.py:69-77 | any split of the input into non-empty batches of at most `k` elements, with only the last allowed to be short, is the reference batching |
| `FixSequences.Norm` | fix_sequences.py:5-10 | the early-return form meets the same prefix-based normalisation and never returns a `postgres://` URL |
| `FixSequences.NormAgreesWithNormalizePgUrl` | fix_sequences.py:5-10 | `norm(u) == normalize_pg_url(u)` for every string `u` |
| `FixSequences.NormPostgres` | fix_sequences.py:6-7 | `norm` maps `"postgres://" + r` to `"postgresql+psycopg://" + r` |
| `FixSequences.NormPostgresql` | fix_sequences.py:8-9 | `norm` maps an unmarked `"postgresql://" + r` to `"postgresql+psycopg://" + r` |
| `FixSequences.NormKeepsOthers` | fix_sequences.py:8-10 | `norm` returns a marked `postgresql://` URL, and a URL of any other scheme, unchanged |
| `FixSequences.NormIdempotent` | fix_sequences.py:5-10 | `norm(norm(u)) == norm(u)` |
| `Database.ResolveDatabaseUrl` | database.py:7-14 | the engine URL is the normalisation of the environment value, or of `sqlite:///./users.db` when it is unset; it equals `normalize_pg_url` of that value; with the variable unset it is exactly the SQLite default |
| `Database.DefaultUrlUnchanged` | database.py:7-14 | the default `sqlite:///./users.db` passes through the rewrite unchanged |
| `Ranking.SortDesc` | model/utils.py:85 | the sorted list is non-increasing in probability and is a permutation (same multiset, same length) of the input |
| `Ranking.SortDescStable` | model/utils.py:85 | for every probability value, the items with that probability appear in the sorted list in their original order |
| `Ranking.SortDescIsStableSort` | model/utils.py:85 | the sort meets the whole stable-descending-sort specification: permutation, sortedness and stability |
| `Ranking.StableSortUnique` | model/utils.py:85 | two sorted lists with the same groups of equal probability, each in the same order, are equal |
| `Ranking.StableSortIsSortDesc` | model/utils.py:85 | every list meeting the stable-descending-sort specification for an input is the sort's result, so the ranking is determined by the specification |
| `Prediction.ClassesShape` | model/utils.py:13-18 | there are 13 classes (`NUM_CLASSES == 13`) and their labels are pairwise distinct |
| `Prediction.IdxToClass` | model/utils.py:62 | the map's keys are exactly 0..NUM_CLASSES-1 and key `i` maps to `CLASSES[i]` |
| `Prediction.IdxToClassBijective` | model/utils.py:62 | `idx_to_class` maps the keys 0..12 onto exactly the set of labels, and different keys give different labels |
| `Prediction.PairWithLabels` | model/utils.py:84 | the pairing succeeds exactly when there are at most 13 probabilities; it then has one entry per probability, and entry `i` carries `CLASSES[i]` and `probs[i]` |
| `Prediction.Mean` | model/utils.py:87 | the mean exists exactly for a non-empty vector, and the mean times the count is the sum |
| `Prediction.MeanWithinRange` | model/utils.py:87 | the precision lies between the least and the greatest probability |
| `Prediction.MeanInUnitInterval` | model/utils.py:87 | when all probabilities lie in [0, 1], so does the precision |
| `Prediction.Predict` | model/utils.py:84-92 | the result exists exactly when there are at most 13 probabilities; its `predictions` are a stable descending sort of the labelled pairs, and its `precision` is their mean |
| `Prediction.PredictLabelsOnce` | model/utils.py:84-85 | with 13 probabilities, the ranked list has 13 entries and names every class label exactly once |

## Left out

- Image decoding, RGB conversion, resizing, CLAHE, grayscale conversion, `ToTensor`/`Normalize` and the sigmoid (model/utils.py:65-82) are left out. They are OpenCV, PIL and torch numerics on floating point. The model starts from the probability vector.
- `build_model`, `safe_load_state_dict` and `load_model_and_transform` (model/utils.py:25-63), apart from the `idx_to_class` map, are left out. They are calls into torchvision and the checkpoint loader.
- The global `DEVICE`, the device argument of `predict` and the model caching in `main.py` are left out. They are hardware selection and process-wide state.
- Strings are sequences of Dafny characters, which cannot be lone surrogates. A Python `str` can hold them (`os.getenv` yields them for undecodable bytes). The rewrite only tests and replaces ASCII prefixes and substrings, so its behaviour on such strings is unaffected.
- Probabilities are reals, so float rounding in `np.mean` and NaN or infinite values in the sort are not modelled. `float(p)` is the identity.
- `Migrate.Chunked`: takes a finite sequence and returns all batches at once. The generator's laziness and its interleaving with the consumer are not modelled. `size` is an integer; other Python numbers are not modelled.
- The rest of the migration script is left out. This covers reading `SQLITE_URL`/`DATABASE_URL`, exiting when `DATABASE_URL` is unset or empty, engines, sessions, ORM imports, `copy_users` and `copy_registros`. It is database I/O.
- The rest of fix_sequences.py is left out. This covers the environment read, the exit when `DATABASE_URL` is unset or empty, and `table_exists`, `column_exists`, `get_serial_sequence_name`, `fix_users_id_sequence` and `check_registros_key_has_sequence`. It is SQL against a live PostgreSQL.
- `Database.ResolveDatabaseUrl`: the environment lookup is a parameter. Engine and session creation (database.py:19-26) is left out.
- auth/routes.py, auth/models.py, auth/schemas.py, main.py and seed_admin.py are not part of this model. They are HTTP handlers, ORM and pydantic declarations, and application wiring.
