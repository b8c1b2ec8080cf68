# rosbag2 sqlite reindexer — a Dafny model

This project models the arithmetic and bookkeeping of `ros2 bag reindex` for
sqlite3 bags. That command rebuilds a bag's metadata descriptor from the
`.db3` shard files in the bag directory. The model covers three parts:

- **Per-shard aggregation** (`get_metadata`). The grouped query's rows
  become one `TopicInfo` each, copied by position. The shard's `min_time` and
  `max_time` are folded from the rows, seeded at `sys.maxsize` and 0.
- **Cross-shard merge** (`reindex`). The `.db3` entries of the directory are
  selected and sorted. Every shard's topics are forwarded to the metadata
  writer in shard-then-row order, and the rolling time bounds are merged. Then
  `starting_time = min`, `duration = max - min`, `version = 4` and
  `storage_identifier = 'sqlite3'` are set, the compression settings pass
  through, and the two path guards decide where the descriptor goes.
- **The verb's compression check** (`ReindexVerb.main`). A compression format
  given with mode `none` is refused. Everything else, file mode included,
  is forwarded unchanged.

Modules:

- `RunningBounds` (`running_bounds.dfy`): the sentinel-seeded running
  minimum/maximum, `Fold`, and its characterisation `IsBound`.
- `PathOrder` (`path_order.dfy`): name order and the sort behind `sorted(...)`.
- `ReindexSqlite` (`reindex_sqlite.dfy`): records, `GetMetadata`, shard
  selection, `Roll` (the loop over shards), `BuildDescriptor` and `Reindex`.
- `ReindexVerb` (`reindex_verb.dfy`): permitted option values, defaults, `Main`.
- `Optional` (`optional.dfy`): `Option`.

The environment is passed in as parameters:

- the directory test `isDir: string -> bool`;
- the names `iterdir` yields, `listing`;
- the fetched query rows of each shard file, `query: string -> seq<Row>`.

The metadata writer is the `Descriptor` record of the fields set on it.
Its `topics` field is the sequence of `add_topic` arguments in call order.
`Reindex` returns either `Written(outDir, descriptor)` or `Raised(error)`.

Behaviour of the program worth knowing when reading the model:

- The verb does not refuse file mode.
- `reindex` itself checks no compression settings.
- An archive with no rows is not an error. It yields `starting_time = sys.maxsize`
  and `duration = -sys.maxsize`.
- The storage identifier written is always `'sqlite3'`.
- The diagnostic for an output directory that is not a directory names the
  bag directory `uri` (see Findings).

## Model

| member | source | states |
|---|---|---|
| RunningBounds.Fold | ros2bag/ros2bag/reindexer/reindex_sqlite.py:92-95 | the running minimum (maximum) after the strict-comparison updates is at or below (above) the seed and every candidate, and is the seed or one of the candidates |
| RunningBounds.BoundIsUnique | ros2bag/ros2bag/reindexer/reindex_sqlite.py:125-135 | a seeded bound depends only on the seed and the set of candidates |
| RunningBounds.FoldIgnoresOrder | ros2bag/ros2bag/reindexer/reindex_sqlite.py:125-135 | folding any permutation of the candidates gives the same bound |
| RunningBounds.StepJoins | ros2bag/ros2bag/reindexer/reindex_sqlite.py:132-135 | one rolling update that combines two bounds with the same seed gives the bound of all their candidates together |
| PathOrder.Sort | ros2bag/ros2bag/reindexer/reindex_sqlite.py:114 | `sorted` yields an ascending permutation of its input |
| PathOrder.SortedUnique | ros2bag/ros2bag/reindexer/reindex_sqlite.py:114 | two ascending sequences with the same elements are equal |
| PathOrder.SortIgnoresOrder | ros2bag/ros2bag/reindexer/reindex_sqlite.py:114 | sorting any rearrangement of the same names gives the same list |
| ReindexSqlite.GetMetadata | ros2bag/ros2bag/reindexer/reindex_sqlite.py:77-99 | one TopicInfo per row in row order, with row[0..3] and row[6] copied to name/type/ser_fmt/count/qos; `min_time` is min(sys.maxsize, every row[4]); `max_time` is max(0, every row[5]); no rows gives ([], sys.maxsize, 0) |
| ReindexSqlite.ShardFileByName | ros2bag/ros2bag/reindexer/reindex_sqlite.py:114 | an entry has suffix `.db3` exactly when its name ends in ".db3" after at least one other character |
| ReindexSqlite.ShardEntries | ros2bag/ros2bag/reindexer/reindex_sqlite.py:114 | the filter keeps exactly the listing entries whose suffix is `.db3`, each as often as it is listed |
| ReindexSqlite.ShardFiles | ros2bag/ros2bag/reindexer/reindex_sqlite.py:114-120 | the recorded relative file paths are the `.db3` entries, sorted, with nothing added or lost |
| ReindexSqlite.ShardFilesIgnoreListingOrder | ros2bag/ros2bag/reindexer/reindex_sqlite.py:114 | the shard list does not depend on the order the directory is listed in |
| ReindexSqlite.Roll | ros2bag/ros2bag/reindexer/reindex_sqlite.py:125-135 | after the loop over shards, the forwarded topics are those of every row in shard-then-row order; the rolling min (max) is min(sys.maxsize, …) (max(0, …)) over every row of every shard |
| ReindexSqlite.RollBoundsShardTimes | ros2bag/ros2bag/reindexer/reindex_sqlite.py:125-135 | the rolling bounds are also min(sys.maxsize, every shard's min_time) and max(0, every shard's max_time) |
| ReindexSqlite.AddTopicCallCount | ros2bag/ros2bag/reindexer/reindex_sqlite.py:127-130 | the number of `add_topic` calls equals the sum of the shards' topic-list lengths |
| ReindexSqlite.ArchiveBoundsIgnoreShardOrder | ros2bag/ros2bag/reindexer/reindex_sqlite.py:125-135 | visiting the same shards in any order gives the same rolling bounds |
| ReindexSqlite.RollSpan | ros2bag/ros2bag/reindexer/reindex_sqlite.py:125-140 | with no rows the rolling bounds stay at sys.maxsize and 0, so the duration is -sys.maxsize; if some row has MIN ≤ MAX, the rolling min is at most the rolling max, so the duration is ≥ 0 |
| ReindexSqlite.SingleShardExample | ros2bag/ros2bag/reindexer/reindex_sqlite.py:125-140 | one shard with "/a" (10–50) and "/b" (20–40): starting time 10, duration 40, both topics forwarded |
| ReindexSqlite.TwoShardExample | ros2bag/ros2bag/reindexer/reindex_sqlite.py:125-140 | two shards with "/a" (10–30, then 25–60): starting time 10, duration 50, "/a" forwarded once per shard |
| ReindexSqlite.BuildDescriptor | ros2bag/ros2bag/reindexer/reindex_sqlite.py:114-140 | version 4 and storage 'sqlite3'; sorted `.db3` paths; compression passed through; topics in shard-then-row order, counted as the sum of per-shard lists; starting time and starting time + duration are the seeded min/max over all rows |
| ReindexSqlite.DescriptorDuration | ros2bag/ros2bag/reindexer/reindex_sqlite.py:125-140 | the recorded duration is ≥ 0 once some row has MIN ≤ MAX; with no rows, starting time is sys.maxsize and duration is -sys.maxsize |
| ReindexSqlite.Reindex | ros2bag/ros2bag/reindexer/reindex_sqlite.py:102-151 | a `uri` that is not a directory raises with `uri` in the message; when `uri` is a directory, a given output dir that is not a directory raises with the message formatted from `uri`, as line 147 does; the descriptor is written exactly when neither guard fires, to the given output dir, else to the bag dir |
| ReindexSqlite.ReindexIgnoresListingOrder | ros2bag/ros2bag/reindexer/reindex_sqlite.py:114-151 | the whole outcome does not depend on the order of the directory listing |
| ReindexSqlite.ReindexDiagnosticNamesPassingPath | ros2bag/ros2bag/reindexer/reindex_sqlite.py:142-147 | as written, for every bag directory and every output dir that is not a directory, `reindex` raises with a message naming a path that passed `is_dir` |
| ReindexSqlite.ReindexCorrected | ros2bag/ros2bag/reindexer/reindex_sqlite.py:102-151 | with the output-directory message naming the output dir, every raised error names a path that failed `is_dir`; it raises exactly when `reindex` does, with the same kind of error, and otherwise writes the same descriptor to the same place (see Findings) |
| ReindexVerb.Main | ros2bag/ros2bag/verb/reindex.py:53-65 | refused exactly when the format is non-empty and the mode is 'none'; otherwise uri, storage, format, mode and output dir are forwarded unchanged |
| ReindexVerb.RefusedPermittedPair | ros2bag/ros2bag/verb/reindex.py:38-57 | over the permitted values, only ('zstd', 'none') is refused; file mode is never refused |
| ReindexVerb.EmptyFormatProceeds | ros2bag/ros2bag/verb/reindex.py:55-65 | an empty format always proceeds, whatever the mode |
| ReindexVerb.DefaultsProceed | ros2bag/ros2bag/verb/reindex.py:35-44 | the defaults ('', 'none') are permitted and pass the check |

## Left out

- sqlite3 access (connect, the debug `SELECT *` queries, running the grouped query): the fetched rows are the `query` parameter. A row's MIN ≤ MAX is assumed only where it is used, as the hypothesis of the duration property.
- A failing connect or query cannot be represented. In the program, a `.db3` entry that is a directory or not a database raises a sqlite3 error from ros2bag/ros2bag/reindexer/reindex_sqlite.py:47-67, before the output-directory check, and nothing is written. `query` always returns rows, so `Reindex` never raises for an unreadable shard.
- All `print` diagnostics, and `print_error` (which is not part of this model). Its return value is what the `ValueError` carries; the model records only the kind of error and which path the message names.
- `bag_metadata.MetadataWriter` is not part of this model: its same-name topic merging, count summation and `write_yaml` serialisation. The writer is the record of what is set on it.
- `Path.is_dir`, `iterdir` and `relative_to` are parameters. Paths are reduced to names inside the bag directory, and two such paths compare by name. Windows case-insensitive path ordering is not modelled.
- ReindexSqlite.IsShardFile follows the Python 3.8 `PurePath.suffix` rule: the last dot must be neither the first nor the last character.
- `sys.maxsize` is fixed at 2^63 - 1, its value on 64-bit CPython.
- `topic_count` is annotated `str` in `TopicInfo`, but holds the integer `COUNT`. It is modelled as a `nat`.
- The argparse wiring of the verb: `check_path_exists`, the positional `'m'` option string, and the attribute names `compression_fmt`, `storage_id` and `_test_output_dir`, which differ from the declared options' destinations. `Main` reads the options by their intended meaning.
- `reindex_base` (the storage dispatcher called by the verb) is not part of this model. `Main` stops at the request it would receive.
- `rosbag2_transport.hpp` only declares the C++ transport interface; there is no logic in it to model.

## Findings

| source | as written | input that shows it | evidently intended | confidence | as-written member | corrected member |
|---|---|---|---|---|---|---|
| ros2bag/ros2bag/reindexer/reindex_sqlite.py:145-147 | the "test output needs a directory" diagnostic formats `uri` | bag directory "bag", output dir "out" that is not a directory: the message names "bag" | name the output directory that failed the check | high (not executed) | ReindexSqlite.ReindexDiagnosticNamesPassingPath | ReindexSqlite.ReindexCorrected |
