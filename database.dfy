/**
  The `videos` table of internal/database/database.go and the health probe.

  The table is an auto-increment primary key `id` and six text columns, one
  of which, `video_id`, is UNIQUE. `Store` is the value of the table (its
  rows by id and the largest id ever handed out, SQLite's sequence entry for
  the table); `VideoTable` is the mutable table the server holds.
 */
module Database {
  import opened Wrappers
  import opened Models
  import opened Strconv

  /** The six stored columns of one row, in schema order after `id`. */
  datatype VideoRow = VideoRow(
    publishedAt: string,
    title: string,
    description: string,
    thumbnailUrl: string,
    videoId: string,
    ownerChannelTitle: string)

  type Rows = map<int, VideoRow>

  /** The whole table: its rows by id and the AUTOINCREMENT sequence value. */
  datatype Store = Store(rows: Rows, lastId: int)

  /** The set of `video_id` values present in the table. */
  function VideoIds(rows: Rows): set<string> {
    set id | id in rows :: rows[id].videoId
  }

  /** The UNIQUE constraint on `video_id`. */
  predicate UniqueVideoIds(rows: Rows) {
    forall i, j :: i in rows && j in rows && rows[i].videoId == rows[j].videoId ==> i == j
  }

  /**
    What the schema guarantees: every id was handed out by AUTOINCREMENT
    (so lies in 1..lastId) and no two rows share a `video_id`.
   */
  predicate WellFormed(st: Store) {
    && st.lastId >= 0
    && (forall id :: id in st.rows ==> 1 <= id <= st.lastId)
    && UniqueVideoIds(st.rows)
  }

  /** No id in 1..lastId is missing: the table only ever grew through inserts. */
  predicate Dense(st: Store) {
    forall id :: 1 <= id <= st.lastId ==> id in st.rows
  }

  const EmptyStore := Store(map[], 0)

  /**
    The columns `SaveVideo` writes for a snippet (the INSERT's parameter
    list); the UNIQUE `video_id` column is the snippet's upstream video id.
   */
  function Columns(s: Snippet): (r: VideoRow)
    ensures r.videoId == s.resourceId.videoId
  {
    VideoRow(s.publishedAt, s.title, s.description, s.thumbnails.default.url,
             s.resourceId.videoId, s.videoOwnerChannelTitle)
  }

  /**
    The snippet a SELECT of row `id` scans into: the stored columns, and the
    zero value in every field that is not a column.
   */
  function Scan(id: int, row: VideoRow): (s: Snippet)
    ensures s.id == id && Columns(s) == row
    ensures s.thumbnails.medium == EmptyThumbnail
    ensures s.thumbnails.default.width == 0 && s.thumbnails.default.height == 0
    ensures s.resourceId.kind == ""
  {
    Snippet(id, row.publishedAt, row.title, row.description,
            Thumbnails(Thumbnail(row.thumbnailUrl, 0, 0), EmptyThumbnail),
            ResourceId("", row.videoId), row.ownerChannelTitle)
  }

  /**
    Storing a snippet's columns and reading them back under its id gives the
    snippet with exactly the unstored fields zeroed: the medium thumbnail,
    the default thumbnail's size and the resource kind.
   */
  lemma StoreThenRead(s: Snippet)
    ensures Scan(s.id, Columns(s)) == s.(
      thumbnails := Thumbnails(s.thumbnails.default.(width := 0, height := 0), EmptyThumbnail),
      resourceId := s.resourceId.(kind := ""))
  {
  }

  /**
    `SaveVideo` as a transition of the table: the row goes in under the next
    AUTOINCREMENT id unless its `video_id` is already present, in which case
    the INSERT fails and the table, sequence included, is left as it was.
   */
  function Insert(st: Store, row: VideoRow): (r: (Store, bool))
    requires WellFormed(st)
    ensures WellFormed(r.0)
    ensures r.1 <==> row.videoId !in VideoIds(st.rows)
    ensures !r.1 ==> r.0 == st
    ensures r.1 ==> r.0.lastId == st.lastId + 1
    ensures r.1 ==> r.0.lastId !in st.rows && r.0.rows.Keys == st.rows.Keys + {r.0.lastId}
    ensures r.1 ==> r.0.rows[r.0.lastId] == row
    ensures r.1 ==> forall id :: id in st.rows ==> id < r.0.lastId && r.0.rows[id] == st.rows[id]
    ensures |r.0.rows| == |st.rows| + (if r.1 then 1 else 0)
    ensures VideoIds(r.0.rows) == VideoIds(st.rows) + {row.videoId}
  {
    if row.videoId in VideoIds(st.rows) then
      assert VideoIds(st.rows) + {row.videoId} == VideoIds(st.rows);
      (st, false)
    else
      InsertFresh(st, row);
      (Store(st.rows[st.lastId + 1 := row], st.lastId + 1), true)
  }

  /** The successful case of `Insert`: the next id is fresh, above every existing id, and nothing else changes. */
  lemma InsertFresh(st: Store, row: VideoRow)
    requires WellFormed(st) && row.videoId !in VideoIds(st.rows)
    ensures WellFormed(Store(st.rows[st.lastId + 1 := row], st.lastId + 1))
    ensures st.lastId + 1 !in st.rows
    ensures st.rows[st.lastId + 1 := row].Keys == st.rows.Keys + {st.lastId + 1}
    ensures forall k :: k in st.rows ==> k < st.lastId + 1
    ensures |st.rows[st.lastId + 1 := row]| == |st.rows| + 1
    ensures VideoIds(st.rows[st.lastId + 1 := row]) == VideoIds(st.rows) + {row.videoId}
  {
    AddRow(st.rows, st.lastId + 1, row);
  }

  /** Inserting never opens a gap: a table without gaps stays without gaps. */
  lemma InsertKeepsDense(st: Store, row: VideoRow)
    requires WellFormed(st) && Dense(st)
    ensures Dense(Insert(st, row).0)
  {
    var st' := Insert(st, row).0;
    forall id | 1 <= id <= st'.lastId ensures id in st'.rows {
      if id <= st.lastId {
        assert id in st.rows;
      }
    }
  }

  /** Adding a row under a fresh id with a fresh `video_id` adds exactly that `video_id` and keeps it unique. */
  lemma AddRow(rows: Rows, id: int, row: VideoRow)
    requires id !in rows && UniqueVideoIds(rows) && row.videoId !in VideoIds(rows)
    ensures VideoIds(rows[id := row]) == VideoIds(rows) + {row.videoId}
    ensures UniqueVideoIds(rows[id := row])
    ensures |rows[id := row]| == |rows| + 1
  {
    var rows' := rows[id := row];
    forall v | v in VideoIds(rows') ensures v in VideoIds(rows) + {row.videoId} {
      var k :| k in rows' && rows'[k].videoId == v;
    }
    forall v | v in VideoIds(rows) ensures v in VideoIds(rows') {
      var k :| k in rows && rows[k].videoId == v;
      assert rows'[k] == rows[k];
    }
    forall i, j | i in rows' && j in rows' && rows'[i].videoId == rows'[j].videoId ensures i == j {
      if i != j && (i == id || j == id) {
        assert false;
      }
    }
    assert rows'.Keys == rows.Keys + {id};
  }

  /** `GetVideoById`: the row whose id is the argument, or not found. */
  function GetVideoById(rows: Rows, id: int): (r: Option<Snippet>)
    ensures r.Some? <==> id in rows
    ensures r.Some? ==> r.value.id == id && Columns(r.value) == rows[id]
    ensures r.Some? ==> r.value == Scan(id, rows[id])
  {
    if id in rows then Some(Scan(id, rows[id])) else None
  }

  /** `GetTotalVideos`: SELECT COUNT(*). */
  function GetTotalVideos(rows: Rows): (n: nat)
    ensures n == |rows.Keys|
    ensures n == 0 <==> rows == map[]
  {
    |rows|
  }

  /** A video saved and then looked up by the id it was given comes back with every stored field. */
  lemma SaveThenGet(st: Store, s: Snippet)
    requires WellFormed(st)
    requires Insert(st, Columns(s)).1
    ensures var st' := Insert(st, Columns(s)).0;
      && GetVideoById(st'.rows, st'.lastId).Some?
      && var v := GetVideoById(st'.rows, st'.lastId).value;
      && v.id == st'.lastId
      && v.publishedAt == s.publishedAt && v.title == s.title && v.description == s.description
      && v.thumbnails.default.url == s.thumbnails.default.url
      && v.resourceId.videoId == s.resourceId.videoId
      && v.videoOwnerChannelTitle == s.videoOwnerChannelTitle
      && v.thumbnails.medium == EmptyThumbnail && v.resourceId.kind == ""
  {
  }

  /** On a table without gaps the count is the last id handed out. */
  lemma DenseCount(st: Store)
    requires WellFormed(st) && Dense(st)
    ensures GetTotalVideos(st.rows) == st.lastId
    ensures forall id :: id in st.rows <==> 1 <= id <= st.lastId
  {
    IdsUpToCount(st.rows, st.lastId);
    assert st.rows.Keys == IdsUpTo(st.rows, st.lastId);
  }

  function IdsUpTo(rows: Rows, n: int): set<int> {
    set id | id in rows && id <= n
  }

  lemma {:induction false} IdsUpToCount(rows: Rows, n: nat)
    requires forall id :: id in rows ==> 1 <= id
    requires forall id :: 1 <= id <= n ==> id in rows
    ensures |IdsUpTo(rows, n)| == n
  {
    if n > 0 {
      assert IdsUpTo(rows, n) == IdsUpTo(rows, n - 1) + {n};
      IdsUpToCount(rows, n - 1);
    } else {
      assert IdsUpTo(rows, n) == {};
    }
  }

  class VideoTable {
    var rows: Rows
    var lastId: int

    ghost predicate Valid()
      reads this
    {
      WellFormed(State())
    }

    function State(): Store
      reads this
    {
      Store(rows, lastId)
    }

    /** A freshly created table: no rows, and the sequence not yet used. */
    constructor ()
      ensures Valid() && Dense(State())
      ensures State() == EmptyStore
    {
      rows := map[];
      lastId := 0;
    }

    /**
      `SaveVideo`: INSERT the snippet's columns; `ok` is false exactly when
      the UNIQUE constraint on `video_id` rejects it.
     */
    method SaveVideo(s: Snippet) returns (ok: bool)
      requires Valid()
      modifies this
      ensures Valid()
      ensures (State(), ok) == Insert(old(State()), Columns(s))
      ensures old(Dense(State())) ==> Dense(State())
    {
      var outcome := Insert(State(), Columns(s));
      if Dense(State()) {
        InsertKeepsDense(State(), Columns(s));
      }
      rows, lastId, ok := outcome.0.rows, outcome.0.lastId, outcome.1;
    }
  }

  /**
    `GetAllVideos`: one snippet per row, each as `GetVideoById` would give
    it. There is no ORDER BY, so the loop takes the rows in an arbitrary
    order and the contract promises none.
   */
  method GetAllVideos(rows: Rows) returns (videos: seq<Snippet>)
    ensures |videos| == GetTotalVideos(rows)
    ensures IdsOf(videos) == rows.Keys
    ensures forall i :: 0 <= i < |videos| ==> GetVideoById(rows, videos[i].id) == Some(videos[i])
    ensures forall i, j :: 0 <= i < j < |videos| ==> videos[i].id != videos[j].id
  {
    videos := [];
    var pending := rows.Keys;
    ghost var done: set<int> := {};
    while pending != {}
      invariant done !! pending && done + pending == rows.Keys
      invariant ScannedSoFar(rows, videos, done)
      decreases pending
    {
      var key := AnyOf(pending);
      ScanStep(rows, videos, done, key);
      videos := videos + [Scan(key, rows[key])];
      done, pending := done + {key}, pending - {key};
    }
    ScannedEverything(rows, videos, done);
  }

  lemma ScannedEverything(rows: Rows, videos: seq<Snippet>, done: set<int>)
    requires done == rows.Keys
    requires ScannedSoFar(rows, videos, done)
    ensures |videos| == |rows|
    ensures IdsOf(videos) == rows.Keys
    ensures forall i :: 0 <= i < |videos| ==> GetVideoById(rows, videos[i].id) == Some(videos[i])
    ensures forall i, j :: 0 <= i < j < |videos| ==> videos[i].id != videos[j].id
  {
  }

  /** The rows in `done` have been scanned into `videos`, one snippet each. */
  predicate ScannedSoFar(rows: Rows, videos: seq<Snippet>, done: set<int>) {
    && done <= rows.Keys
    && IdsOf(videos) == done
    && |videos| == |done|
    && (forall i :: 0 <= i < |videos| ==> videos[i].id in rows && videos[i] == Scan(videos[i].id, rows[videos[i].id]))
    && (forall i, j :: 0 <= i < j < |videos| ==> videos[i].id != videos[j].id)
  }

  /** Scanning one more row keeps `ScannedSoFar`. */
  lemma ScanStep(rows: Rows, videos: seq<Snippet>, done: set<int>, key: int)
    requires ScannedSoFar(rows, videos, done)
    requires key in rows && key !in done
    ensures ScannedSoFar(rows, videos + [Scan(key, rows[key])], done + {key})
  {
    var video := Scan(key, rows[key]);
    IdsOfAppend(videos, video);
    AppendKeepsScanned(rows, videos, key);
    AppendKeepsDistinct(videos, video);
  }

  lemma AppendKeepsScanned(rows: Rows, videos: seq<Snippet>, key: int)
    requires forall i :: 0 <= i < |videos| ==> videos[i].id in rows && videos[i] == Scan(videos[i].id, rows[videos[i].id])
    requires key in rows
    ensures var videos' := videos + [Scan(key, rows[key])];
      forall i :: 0 <= i < |videos'| ==> videos'[i].id in rows && videos'[i] == Scan(videos'[i].id, rows[videos'[i].id])
  {
  }

  lemma AppendKeepsDistinct(videos: seq<Snippet>, video: Snippet)
    requires forall i, j :: 0 <= i < j < |videos| ==> videos[i].id != videos[j].id
    requires video.id !in IdsOf(videos)
    ensures var videos' := videos + [video];
      forall i, j :: 0 <= i < j < |videos'| ==> videos'[i].id != videos'[j].id
  {
  }

  lemma IdsOfAppend(videos: seq<Snippet>, video: Snippet)
    ensures IdsOf(videos + [video]) == IdsOf(videos) + {video.id}
  {
  }

  /** Some element of a non-empty set of ids; which one is left open, as a result set's row order is. */
  method AnyOf(ids: set<int>) returns (id: int)
    requires ids != {}
    ensures id in ids
  {
    NonEmptyHasElement(ids);
    id :| id in ids;
  }

  lemma NonEmptyHasElement(ids: set<int>)
    requires ids != {}
    ensures exists id :: id in ids
  {
    if forall id :: id !in ids {
      assert false;
    }
  }

  /** The row ids of a list of snippets. */
  function IdsOf(videos: seq<Snippet>): set<int> {
    set v | v in videos :: v.id
  }

  // ---------------------------------------------------------------------
  // Health

  /** The connection-pool counters of `sql.DBStats` the health message reads. */
  datatype PoolStats = PoolStats(
    openConnections: nat,
    inUse: nat,
    idle: nat,
    waitCount: nat,
    maxIdleClosed: nat,
    maxLifetimeClosed: nat)

  const Healthy := "It's healthy"
  const HeavyLoad := "The database is experiencing heavy load."
  const ManyWaits := "The database has a high number of wait events, indicating potential bottlenecks."
  const IdleClosing := "Many idle connections are being closed, consider revising the connection pool settings."
  const LifetimeClosing := "Many connections are being closed due to max lifetime, consider increasing max lifetime or revising the connection usage pattern."

  predicate HeavyLoadCondition(p: PoolStats) { p.openConnections > 40 }
  predicate ManyWaitsCondition(p: PoolStats) { p.waitCount > 1000 }
  predicate IdleClosingCondition(p: PoolStats) { p.maxIdleClosed > p.openConnections / 2 }
  predicate LifetimeClosingCondition(p: PoolStats) { p.maxLifetimeClosed > p.openConnections / 2 }

  /**
    The health message: the message of the LAST condition that holds, in the
    order heavy load, wait events, idle closes, lifetime closes; "It's
    healthy" when none holds.
   */
  function HealthMessage(p: PoolStats): (msg: string)
    ensures msg == LifetimeClosing <==> LifetimeClosingCondition(p)
    ensures msg == IdleClosing <==> IdleClosingCondition(p) && !LifetimeClosingCondition(p)
    ensures msg == ManyWaits <==>
      ManyWaitsCondition(p) && !IdleClosingCondition(p) && !LifetimeClosingCondition(p)
    ensures msg == HeavyLoad <==>
      HeavyLoadCondition(p) && !ManyWaitsCondition(p) && !IdleClosingCondition(p) && !LifetimeClosingCondition(p)
    ensures msg == Healthy <==>
      !HeavyLoadCondition(p) && !ManyWaitsCondition(p) && !IdleClosingCondition(p) && !LifetimeClosingCondition(p)
  {
    if LifetimeClosingCondition(p) then LifetimeClosing
    else if IdleClosingCondition(p) then IdleClosing
    else if ManyWaitsCondition(p) then ManyWaits
    else if HeavyLoadCondition(p) then HeavyLoad
    else Healthy
  }

  /**
    The outcome of a health probe: the report map when the ping succeeds;
    when it fails the process logs the error and exits, so no report is
    returned.
   */
  datatype HealthOutcome = Report(stats: map<string, string>) | Fatal(logLine: string)

  /**
    `Health`: the ping result and the pool counters are inputs (`pingError`
    is None when the ping succeeds); `waitDuration` is the already rendered
    `WaitDuration.String()`.
   */
  method Health(pingError: Option<string>, p: PoolStats, waitDuration: string) returns (out: HealthOutcome)
    ensures pingError.Some? <==> out.Fatal?
    ensures pingError.Some? ==> out.logLine == "db down: " + pingError.value
    ensures out.Report? ==>
      out.stats.Keys == {"status", "message", "open_connections", "in_use", "idle", "wait_count",
                         "wait_duration", "max_idle_closed", "max_lifetime_closed"}
    ensures out.Report? ==> out.stats["status"] == "up" && out.stats["message"] == HealthMessage(p)
    ensures out.Report? ==>
      && out.stats["open_connections"] == Itoa(p.openConnections)
      && out.stats["in_use"] == Itoa(p.inUse)
      && out.stats["idle"] == Itoa(p.idle)
      && out.stats["wait_count"] == Itoa(p.waitCount)
      && out.stats["wait_duration"] == waitDuration
      && out.stats["max_idle_closed"] == Itoa(p.maxIdleClosed)
      && out.stats["max_lifetime_closed"] == Itoa(p.maxLifetimeClosed)
  {
    if pingError.Some? {
      return Fatal("db down: " + pingError.value);
    }
    var stats := map[
      "status" := "up",
      "message" := Healthy,
      "open_connections" := Itoa(p.openConnections),
      "in_use" := Itoa(p.inUse),
      "idle" := Itoa(p.idle),
      "wait_count" := Itoa(p.waitCount),
      "wait_duration" := waitDuration,
      "max_idle_closed" := Itoa(p.maxIdleClosed),
      "max_lifetime_closed" := Itoa(p.maxLifetimeClosed)];
    stats := ApplyWarnings(stats, p);
    out := Report(stats);
  }

  /**
    The warning checks at the end of `Health`, in source order: each one
    whose condition holds overwrites "message", so the last one wins.
   */
  method ApplyWarnings(stats: map<string, string>, p: PoolStats) returns (stats': map<string, string>)
    requires "message" in stats && stats["message"] == Healthy
    ensures stats' == stats["message" := HealthMessage(p)]
  {
    stats' := stats;
    if p.openConnections > 40 {
      stats' := stats'["message" := HeavyLoad];
    }
    if p.waitCount > 1000 {
      stats' := stats'["message" := ManyWaits];
    }
    if p.maxIdleClosed > p.openConnections / 2 {
      stats' := stats'["message" := IdleClosing];
    }
    if p.maxLifetimeClosed > p.openConnections / 2 {
      stats' := stats'["message" := LifetimeClosing];
    }
  }
}
