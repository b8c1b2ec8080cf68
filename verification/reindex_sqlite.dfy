/** Rebuilding the metadata descriptor of an sqlite3 bag from its shard files.

    The database, the directory and the metadata writer are not modelled as
    objects: the grouped query's result rows of each shard, the directory
    listing and the directory test are parameters, and the writer is the
    `Descriptor` record of everything set on it, including the `add_topic`
    calls in the order they were made. */
module ReindexSqlite {
  import opened Optional
  import opened RunningBounds
  import opened PathOrder

  /** `sys.maxsize` of a 64-bit CPython: the seed of every running minimum. */
  const MaxSize: int := 0x7FFF_FFFF_FFFF_FFFF

  /** The only shard files the reindexer reads. */
  const ShardSuffix: string := ".db3"

  /** One row of the per-shard grouped query, read by position:
      (name, type, serialization_format, COUNT(messages.id),
       MIN(messages.timestamp), MAX(messages.timestamp), offered_qos_profiles). */
  type Row = (string, string, string, nat, int, int, string)

  /** One topic as handed to the metadata writer. */
  datatype TopicInfo = TopicInfo(
    topicName: string,
    topicType: string,
    topicSerFmt: string,
    topicCount: nat,
    topicQos: string)

  /** What one shard contributes: its topics and its time bounds. */
  datatype DBMetadata = DBMetadata(topicMetadata: seq<TopicInfo>, minTime: int, maxTime: int)

  /** Everything the reindexer sets on the metadata writer. `topics` lists the
      arguments of the `add_topic` calls in call order; merging topics of the
      same name is the writer's business and is not modelled. */
  datatype Descriptor = Descriptor(
    version: int,
    storageIdentifier: string,
    relativeFilePaths: seq<string>,
    compressionFormat: string,
    compressionMode: string,
    topics: seq<TopicInfo>,
    startingTime: int,
    duration: int)

  /** The `ValueError`s of `reindex`; `shownPath` is the path the printed
      diagnostic names. */
  datatype ReindexError =
    | NotABagDirectory(shownPath: string)
    | NotAnOutputDirectory(shownPath: string)

  /** Either the descriptor is written to `outDir`, or an error is raised and
      nothing is written. */
  datatype Outcome =
    | Written(outDir: string, descriptor: Descriptor)
    | Raised(error: ReindexError)

  // ---------------------------------------------------------------------
  // Per-shard aggregation

  /** Copies the positional fields of a row: 0..3 and 6. */
  function TopicOf(row: Row): TopicInfo {
    TopicInfo(row.0, row.1, row.2, row.3, row.6)
  }

  function TopicsOf(rows: seq<Row>): seq<TopicInfo> {
    seq(|rows|, i requires 0 <= i < |rows| => TopicOf(rows[i]))
  }

  /** MIN(timestamp) of a row. */
  function RowMin(row: Row): int {
    row.4
  }

  /** MAX(timestamp) of a row. */
  function RowMax(row: Row): int {
    row.5
  }

  /** One integer column of the query result. */
  function Column(rows: seq<Row>, col: Row -> int): seq<int> {
    seq(|rows|, i requires 0 <= i < |rows| => col(rows[i]))
  }

  function MinColumn(rows: seq<Row>): seq<int> {
    Column(rows, RowMin)
  }

  function MaxColumn(rows: seq<Row>): seq<int> {
    Column(rows, RowMax)
  }

  lemma TimeColumnsAt(rows: seq<Row>, i: int)
    requires 0 <= i < |rows|
    ensures |MinColumn(rows)| == |MaxColumn(rows)| == |rows|
    ensures MinColumn(rows)[i] == rows[i].4 && MaxColumn(rows)[i] == rows[i].5
  {
    assert Column(rows, RowMin)[i] == RowMin(rows[i]);
    assert Column(rows, RowMax)[i] == RowMax(rows[i]);
  }

  /** `get_metadata` once the query rows are fetched: one topic per row in row
      order, and the shard's time bounds seeded at `sys.maxsize` and 0. */
  function GetMetadata(rows: seq<Row>): (m: DBMetadata)
    ensures |m.topicMetadata| == |rows|
    ensures forall i :: 0 <= i < |rows| ==>
      && m.topicMetadata[i].topicName == rows[i].0
      && m.topicMetadata[i].topicType == rows[i].1
      && m.topicMetadata[i].topicSerFmt == rows[i].2
      && m.topicMetadata[i].topicCount == rows[i].3
      && m.topicMetadata[i].topicQos == rows[i].6
    ensures IsBound(Lower, m.minTime, MaxSize, MinColumn(rows))
    ensures IsBound(Upper, m.maxTime, 0, MaxColumn(rows))
    ensures rows == [] ==> m == DBMetadata([], MaxSize, 0)
  {
    DBMetadata(TopicsOf(rows), Fold(Lower, MaxSize, MinColumn(rows)), Fold(Upper, 0, MaxColumn(rows)))
  }

  // ---------------------------------------------------------------------
  // Shard selection

  /** Index of the last occurrence of `c` in `s`, or -1: Python's `rfind`. */
  function RFind(s: string, c: char): (i: int)
    ensures -1 <= i < |s|
    ensures i >= 0 ==> s[i] == c
    ensures forall j :: i < j < |s| ==> s[j] != c
    decreases |s|
  {
    if |s| == 0 then -1
    else if s[|s| - 1] == c then |s| - 1
    else RFind(s[..|s| - 1], c)
  }

  /** `pathlib.PurePath.suffix` of a file name: from the last dot on, unless
      that dot starts or ends the name. */
  function Suffix(name: string): string {
    var i := RFind(name, '.');
    if 0 < i < |name| - 1 then name[i..] else ""
  }

  predicate IsShardFile(name: string) {
    Suffix(name) == ShardSuffix
  }

  /** A name is selected exactly when it ends in ".db3" after at least one
      other character; ".db3" alone (a hidden file) has no suffix. */
  lemma ShardFileByName(name: string)
    ensures IsShardFile(name) <==> |name| >= 5 && name[|name| - 4..] == ShardSuffix
  {
    var i := RFind(name, '.');
    if IsShardFile(name) {
      assert name[i..] == ShardSuffix;
      assert |name| - i == 4;
    }
    if |name| >= 5 && name[|name| - 4..] == ShardSuffix {
      assert name[|name| - 4] == '.';
      assert i == |name| - 4 by {
        forall j | |name| - 4 < j < |name|
          ensures name[j] != '.'
        {
          assert name[j] == ShardSuffix[j - (|name| - 4)];
        }
      }
    }
  }

  /** The listing entries that are shard files, in listing order. */
  function ShardEntries(listing: seq<string>): (r: seq<string>)
    ensures forall x :: x in r <==> x in listing && IsShardFile(x)
    ensures forall x :: multiset(r)[x] == if IsShardFile(x) then multiset(listing)[x] else 0
    decreases |listing|
  {
    if |listing| == 0 then []
    else
      assert listing == [listing[0]] + listing[1..];
      (if IsShardFile(listing[0]) then [listing[0]] else []) + ShardEntries(listing[1..])
  }

  /** `sorted(f for f in uri_dir.iterdir() if f.suffix == '.db3')`, each made
      relative to the bag directory, that is, reduced to its name. */
  function ShardFiles(listing: seq<string>): (r: seq<string>)
    ensures Sorted(r)
    ensures forall x :: x in r <==> x in listing && IsShardFile(x)
    ensures multiset(r) == multiset(ShardEntries(listing))
  {
    Sort(ShardEntries(listing))
  }

  /** The shard list does not depend on the order the directory is listed in. */
  lemma ShardFilesIgnoreListingOrder(l1: seq<string>, l2: seq<string>)
    requires multiset(l1) == multiset(l2)
    ensures ShardFiles(l1) == ShardFiles(l2)
  {
    forall x
      ensures multiset(ShardEntries(l1))[x] == multiset(ShardEntries(l2))[x]
    {
    }
    assert multiset(ShardEntries(l1)) == multiset(ShardEntries(l2));
    SortIgnoresOrder(ShardEntries(l1), ShardEntries(l2));
  }

  // ---------------------------------------------------------------------
  // Cross-shard merge

  /** The query rows of each shard file, in file order. */
  function ShardRows(files: seq<string>, query: string -> seq<Row>): seq<seq<Row>> {
    seq(|files|, i requires 0 <= i < |files| => query(files[i]))
  }

  /** Every row of every shard, shard by shard. */
  function AllRows(shards: seq<seq<Row>>): seq<Row>
    decreases |shards|
  {
    if |shards| == 0 then [] else AllRows(shards[..|shards| - 1]) + shards[|shards| - 1]
  }

  /** Number of topics the shards report, summed over the shards. */
  function TopicListTotal(shards: seq<seq<Row>>): nat
    decreases |shards|
  {
    if |shards| == 0 then 0
    else TopicListTotal(shards[..|shards| - 1]) + |GetMetadata(shards[|shards| - 1]).topicMetadata|
  }

  /** Each shard's own `min_time`, in shard order. */
  function ShardMinTimes(shards: seq<seq<Row>>): seq<int> {
    seq(|shards|, k requires 0 <= k < |shards| => GetMetadata(shards[k]).minTime)
  }

  /** Each shard's own `max_time`, in shard order. */
  function ShardMaxTimes(shards: seq<seq<Row>>): seq<int> {
    seq(|shards|, k requires 0 <= k < |shards| => GetMetadata(shards[k]).maxTime)
  }

  /** State of `reindex`'s loop over the shard files: the topics passed to
      `add_topic` so far and the rolling time bounds. */
  datatype Rolling = Rolling(topics: seq<TopicInfo>, minTime: int, maxTime: int)

  lemma ColumnsOfAppend(a: seq<Row>, b: seq<Row>)
    ensures TopicsOf(a + b) == TopicsOf(a) + TopicsOf(b)
    ensures MinColumn(a + b) == MinColumn(a) + MinColumn(b)
    ensures MaxColumn(a + b) == MaxColumn(a) + MaxColumn(b)
  {
  }

  /** The loop over the shard files after it has visited all of `shards`:
      every shard's topics forwarded in shard-then-row order, and the rolling
      bounds, seeded at `sys.maxsize` and 0, updated with each shard's own. */
  function Roll(shards: seq<seq<Row>>): (r: Rolling)
    ensures r.topics == TopicsOf(AllRows(shards))
    ensures IsBound(Lower, r.minTime, MaxSize, MinColumn(AllRows(shards)))
    ensures IsBound(Upper, r.maxTime, 0, MaxColumn(AllRows(shards)))
    decreases |shards|
  {
    if |shards| == 0 then
      Rolling([], MaxSize, 0)
    else
      var before := Roll(shards[..|shards| - 1]);
      var rows := shards[|shards| - 1];
      var db := GetMetadata(rows);
      var seen := AllRows(shards[..|shards| - 1]);
      ColumnsOfAppend(seen, rows);
      StepJoins(Lower, before.minTime, db.minTime, MaxSize, MinColumn(seen), MinColumn(rows));
      StepJoins(Upper, before.maxTime, db.maxTime, 0, MaxColumn(seen), MaxColumn(rows));
      Rolling(
        before.topics + db.topicMetadata,
        Step(Lower, before.minTime, db.minTime),
        Step(Upper, before.maxTime, db.maxTime))
  }

  lemma ShardTimesAppend(shards: seq<seq<Row>>)
    requires |shards| > 0
    ensures ShardMinTimes(shards)
         == ShardMinTimes(shards[..|shards| - 1]) + [GetMetadata(shards[|shards| - 1]).minTime]
    ensures ShardMaxTimes(shards)
         == ShardMaxTimes(shards[..|shards| - 1]) + [GetMetadata(shards[|shards| - 1]).maxTime]
  {
  }

  /** The rolling bounds are also the bounds of the shards' own `min_time`
      and `max_time` values, seeded at `sys.maxsize` and 0. */
  lemma {:induction false} RollBoundsShardTimes(shards: seq<seq<Row>>)
    ensures IsBound(Lower, Roll(shards).minTime, MaxSize, ShardMinTimes(shards))
    ensures IsBound(Upper, Roll(shards).maxTime, 0, ShardMaxTimes(shards))
    decreases |shards|
  {
    if |shards| > 0 {
      var prefix := shards[..|shards| - 1];
      var db := GetMetadata(shards[|shards| - 1]);
      var before := Roll(prefix);
      RollBoundsShardTimes(prefix);
      ShardTimesAppend(shards);
      assert Roll(shards).minTime == Step(Lower, before.minTime, db.minTime);
      assert Roll(shards).maxTime == Step(Upper, before.maxTime, db.maxTime);
      StepJoins(Lower, before.minTime, db.minTime, MaxSize, ShardMinTimes(prefix), [db.minTime]);
      StepJoins(Upper, before.maxTime, db.maxTime, 0, ShardMaxTimes(prefix), [db.maxTime]);
    }
  }

  /** `add_topic` is called once per topic of every shard. */
  lemma {:induction false} AddTopicCallCount(shards: seq<seq<Row>>)
    ensures |Roll(shards).topics| == TopicListTotal(shards)
    decreases |shards|
  {
    if |shards| > 0 {
      AddTopicCallCount(shards[..|shards| - 1]);
    }
  }

  lemma {:induction false} InAllRows(shards: seq<seq<Row>>, r: Row)
    ensures r in AllRows(shards) <==> exists k :: 0 <= k < |shards| && r in shards[k]
    decreases |shards|
  {
    if |shards| > 0 {
      var prefix := shards[..|shards| - 1];
      InAllRows(prefix, r);
      if r in AllRows(shards) && r !in shards[|shards| - 1] {
        var k :| 0 <= k < |prefix| && r in prefix[k];
        assert r in shards[k];
      }
      if exists k :: 0 <= k < |shards| && r in shards[k] {
        var k :| 0 <= k < |shards| && r in shards[k];
        if k < |shards| - 1 {
          assert r in prefix[k];
        }
      }
    }
  }

  /** Every value of a column over `a` is a value of that column over any
      `b` holding all the rows of `a`. */
  lemma ColumnValuesIncluded(a: seq<Row>, b: seq<Row>, col: Row -> int)
    requires forall r :: r in a ==> r in b
    ensures forall x :: x in Column(a, col) ==> x in Column(b, col)
  {
    forall x | x in Column(a, col)
      ensures x in Column(b, col)
    {
      var i :| 0 <= i < |a| && Column(a, col)[i] == x;
      assert a[i] in b;
      var j :| 0 <= j < |b| && b[j] == a[i];
      assert Column(b, col)[j] == x;
    }
  }

  /** The archive's time bounds do not depend on the order the shards are
      visited in. */
  lemma ArchiveBoundsIgnoreShardOrder(a: seq<seq<Row>>, b: seq<seq<Row>>)
    requires multiset(a) == multiset(b)
    ensures Roll(a).minTime == Roll(b).minTime
    ensures Roll(a).maxTime == Roll(b).maxTime
  {
    forall r
      ensures r in AllRows(a) <==> r in AllRows(b)
    {
      InAllRows(a, r);
      InAllRows(b, r);
      if exists k :: 0 <= k < |a| && r in a[k] {
        var k :| 0 <= k < |a| && r in a[k];
        assert a[k] in multiset(b);
        var k' :| 0 <= k' < |b| && b[k'] == a[k];
        assert r in b[k'];
      }
      if exists k :: 0 <= k < |b| && r in b[k] {
        var k :| 0 <= k < |b| && r in b[k];
        assert b[k] in multiset(a);
        var k' :| 0 <= k' < |a| && a[k'] == b[k];
        assert r in a[k'];
      }
    }
    ColumnValuesIncluded(AllRows(a), AllRows(b), RowMin);
    ColumnValuesIncluded(AllRows(b), AllRows(a), RowMin);
    ColumnValuesIncluded(AllRows(a), AllRows(b), RowMax);
    ColumnValuesIncluded(AllRows(b), AllRows(a), RowMax);
    BoundIsUnique(Lower, Roll(a).minTime, Roll(b).minTime, MaxSize,
      MinColumn(AllRows(a)), MinColumn(AllRows(b)));
    BoundIsUnique(Upper, Roll(a).maxTime, Roll(b).maxTime, 0,
      MaxColumn(AllRows(a)), MaxColumn(AllRows(b)));
  }

  /** With no rows at all the rolling bounds stay at their seeds; one row
      whose own MIN does not exceed its MAX is enough to keep the rolling
      minimum at or below the rolling maximum. */
  lemma RollSpan(shards: seq<seq<Row>>)
    ensures AllRows(shards) == [] ==> Roll(shards).minTime == MaxSize && Roll(shards).maxTime == 0
    ensures (exists r :: r in AllRows(shards) && r.4 <= r.5) ==> Roll(shards).minTime <= Roll(shards).maxTime
  {
    var rows := AllRows(shards);
    if exists r :: r in rows && r.4 <= r.5 {
      var r :| r in rows && r.4 <= r.5;
      var i :| 0 <= i < |rows| && rows[i] == r;
      TimeColumnsAt(rows, i);
    }
  }

  /** One shard with topic "/a" (5 messages stamped 10 to 50) and topic "/b"
      (3 messages stamped 20 to 40): the archive starts at 10 and lasts 40. */
  lemma SingleShardExample()
    ensures var shard: seq<Row> := [("/a", "T", "cdr", 5, 10, 50, "q"), ("/b", "T", "cdr", 3, 20, 40, "q")];
      && Roll([shard]).minTime == 10
      && Roll([shard]).maxTime - Roll([shard]).minTime == 40
      && Roll([shard]).topics == [TopicInfo("/a", "T", "cdr", 5, "q"), TopicInfo("/b", "T", "cdr", 3, "q")]
  {
    var shard: seq<Row> := [("/a", "T", "cdr", 5, 10, 50, "q"), ("/b", "T", "cdr", 3, 20, 40, "q")];
    assert [shard][..0] == [];
    assert AllRows([shard]) == shard;
    TimeColumnsAt(shard, 0);
    TimeColumnsAt(shard, 1);
    assert MinColumn(shard) == [10, 20];
    assert MaxColumn(shard) == [50, 40];
  }

  /** Two shards that both carry "/a", stamped 10 to 30 and 25 to 60: the
      archive starts at 10 and lasts 50, and "/a" is added once per shard. */
  lemma TwoShardExample()
    ensures var s1: seq<Row> := [("/a", "T", "cdr", 5, 10, 30, "q")];
      var s2: seq<Row> := [("/a", "T", "cdr", 7, 25, 60, "q")];
      && Roll([s1, s2]).minTime == 10
      && Roll([s1, s2]).maxTime - Roll([s1, s2]).minTime == 50
      && Roll([s1, s2]).topics == [TopicInfo("/a", "T", "cdr", 5, "q"), TopicInfo("/a", "T", "cdr", 7, "q")]
  {
    var s1: seq<Row> := [("/a", "T", "cdr", 5, 10, 30, "q")];
    var s2: seq<Row> := [("/a", "T", "cdr", 7, 25, 60, "q")];
    assert [s1, s2][..1] == [s1];
    assert [s1][..0] == [];
    assert AllRows([s1]) == s1;
    assert AllRows([s1, s2]) == s1 + s2;
    assert TopicsOf(s1 + s2) == [TopicOf(s1[0]), TopicOf(s2[0])];
    TimeColumnsAt(s1 + s2, 0);
    TimeColumnsAt(s1 + s2, 1);
    assert MinColumn(s1 + s2) == [10, 25];
    assert MaxColumn(s1 + s2) == [30, 60];
  }

  // ---------------------------------------------------------------------
  // Orchestration

  /** The query rows of each selected shard file, in sorted file order. */
  function ArchiveShards(listing: seq<string>, query: string -> seq<Row>): seq<seq<Row>> {
    ShardRows(ShardFiles(listing), query)
  }

  /** Every row of every selected shard, shard by shard. */
  function ArchiveRows(listing: seq<string>, query: string -> seq<Row>): seq<Row> {
    AllRows(ArchiveShards(listing, query))
  }

  /** The descriptor `reindex` builds for a bag directory whose entries are
      `listing`, with `query` giving each shard file's query rows. */
  function BuildDescriptor(
    compressionFmt: string,
    compressionMode: string,
    listing: seq<string>,
    query: string -> seq<Row>): (d: Descriptor)
    // fixed fields and pass-through
    ensures d.version == 4
    ensures d.storageIdentifier == "sqlite3"
    ensures d.relativeFilePaths == ShardFiles(listing)
    ensures d.compressionFormat == compressionFmt
    ensures d.compressionMode == compressionMode
    // topics, in shard-then-row order, and the archive's time span
    ensures d.topics == TopicsOf(ArchiveRows(listing, query))
    ensures |d.topics| == TopicListTotal(ArchiveShards(listing, query))
    ensures IsBound(Lower, d.startingTime, MaxSize, MinColumn(ArchiveRows(listing, query)))
    ensures IsBound(Upper, d.startingTime + d.duration, 0, MaxColumn(ArchiveRows(listing, query)))
  {
    var files := ShardFiles(listing);
    var shards := ArchiveShards(listing, query);
    var rolled := Roll(shards);
    AddTopicCallCount(shards);
    Descriptor(
      4, "sqlite3", files, compressionFmt, compressionMode,
      rolled.topics, rolled.minTime, rolled.maxTime - rolled.minTime)
  }

  /** The recorded duration: `-sys.maxsize` when no shard has any row, and
      never negative once some row has MIN <= MAX. */
  lemma DescriptorDuration(
    compressionFmt: string,
    compressionMode: string,
    listing: seq<string>,
    query: string -> seq<Row>)
    ensures var d := BuildDescriptor(compressionFmt, compressionMode, listing, query);
      var rows := ArchiveRows(listing, query);
      && (rows == [] ==> d.startingTime == MaxSize && d.duration == 0 - MaxSize)
      && ((exists r :: r in rows && r.4 <= r.5) ==> d.duration >= 0)
  {
    RollSpan(ArchiveShards(listing, query));
  }

  /** `reindex` on a bag directory `uri`. `isDir` answers `Path.is_dir`,
      `listing` holds the names `iterdir` yields, and `query` the grouped
      query's rows for a shard file name. */
  function Reindex(
    uri: string,
    compressionFmt: string,
    compressionMode: string,
    testOutputDir: Option<string>,
    isDir: string -> bool,
    listing: seq<string>,
    query: string -> seq<Row>): (out: Outcome)
    ensures !isDir(uri) ==> out == Raised(NotABagDirectory(uri))
    ensures isDir(uri) && testOutputDir.Some? && !isDir(testOutputDir.value) ==>
      out == Raised(NotAnOutputDirectory(uri))
    ensures out.Written? <==> isDir(uri) && (testOutputDir.None? || isDir(testOutputDir.value))
    ensures out.Written? ==> out.outDir == (if testOutputDir.Some? then testOutputDir.value else uri)
    ensures out.Written? ==> out.descriptor == BuildDescriptor(compressionFmt, compressionMode, listing, query)
  {
    if !isDir(uri) then
      Raised(NotABagDirectory(uri))
    else
      var descriptor := BuildDescriptor(compressionFmt, compressionMode, listing, query);
      match testOutputDir
      case Some(dir) =>
        // the diagnostic is formatted with the bag directory, not `dir`
        if !isDir(dir) then Raised(NotAnOutputDirectory(uri)) else Written(dir, descriptor)
      case None =>
        Written(uri, descriptor)
  }

  /** A raised error names a path that failed `Path.is_dir`, so the message
      points at what is wrong. */
  predicate NamesFailingPath(out: Outcome, isDir: string -> bool) {
    out.Raised? ==> !isDir(out.error.shownPath)
  }

  /** As written, a missing output directory is reported under the name of
      the bag directory, which passed the check: the message points at the
      wrong path for every such input. */
  lemma ReindexDiagnosticNamesPassingPath(
    uri: string,
    compressionFmt: string,
    compressionMode: string,
    outDir: string,
    isDir: string -> bool,
    listing: seq<string>,
    query: string -> seq<Row>)
    requires isDir(uri) && !isDir(outDir)
    ensures var out := Reindex(uri, compressionFmt, compressionMode, Some(outDir), isDir, listing, query);
      && out.Raised?
      && isDir(out.error.shownPath)
      && !NamesFailingPath(out, isDir)
  {
  }

  /** `reindex` with the output-directory diagnostic naming the output
      directory: every error names a path that failed `Path.is_dir`, and the
      outcome agrees with `Reindex` in everything but that path. */
  function ReindexCorrected(
    uri: string,
    compressionFmt: string,
    compressionMode: string,
    testOutputDir: Option<string>,
    isDir: string -> bool,
    listing: seq<string>,
    query: string -> seq<Row>): (out: Outcome)
    ensures NamesFailingPath(out, isDir)
    ensures var asWritten := Reindex(uri, compressionFmt, compressionMode, testOutputDir, isDir, listing, query);
      && (out.Written? ==> out == asWritten)
      && (out.Raised? <==> asWritten.Raised?)
      && (out.Raised? ==> out.error.NotABagDirectory? == asWritten.error.NotABagDirectory?)
  {
    if isDir(uri) && testOutputDir.Some? && !isDir(testOutputDir.value) then
      Raised(NotAnOutputDirectory(testOutputDir.value))
    else
      Reindex(uri, compressionFmt, compressionMode, testOutputDir, isDir, listing, query)
  }

  /** Listing the bag directory in another order yields the same outcome. */
  lemma ReindexIgnoresListingOrder(
    uri: string,
    compressionFmt: string,
    compressionMode: string,
    testOutputDir: Option<string>,
    isDir: string -> bool,
    l1: seq<string>,
    l2: seq<string>,
    query: string -> seq<Row>)
    requires multiset(l1) == multiset(l2)
    ensures Reindex(uri, compressionFmt, compressionMode, testOutputDir, isDir, l1, query)
         == Reindex(uri, compressionFmt, compressionMode, testOutputDir, isDir, l2, query)
  {
    ShardFilesIgnoreListingOrder(l1, l2);
  }
}
